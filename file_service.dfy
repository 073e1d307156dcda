/**
  The media-type check of the upload endpoint (`FileService` in the backend).
  `mimetypes.guess_type` is a foreign oracle and enters as the parameter `guess`,
  the MIME type it guesses for a file name (None when it has no guess).
 */
module FileService {
  import opened Wrappers

  const SupportedAudioTypes: set<string> :=
    {"audio/mpeg", "audio/mp4", "audio/wav", "audio/x-wav", "audio/flac", "audio/x-flac", "audio/mp3"}

  const SupportedVideoTypes: set<string> :=
    {"video/mp4", "video/avi", "video/mov", "video/quicktime", "video/x-msvideo"}

  const SupportedExtensions: set<string> :=
    {".mp3", ".mp4", ".wav", ".m4a", ".flac", ".avi", ".mov"}

  /** Index of the last occurrence of `c` in `s`, or -1 (`str.rfind`). */
  function LastIndexOf(s: string, c: char): (r: int)
    ensures -1 <= r < |s|
    ensures r >= 0 ==> s[r] == c
    ensures forall k :: r < k < |s| ==> s[k] != c
  {
    if |s| == 0 then -1
    else if s[|s| - 1] == c then |s| - 1
    else LastIndexOf(s[..|s| - 1], c)
  }

  /** The final component of a POSIX path (`PurePosixPath(s).name`): empty and "."
      components are dropped, and a path with no component left has the name "". */
  function Name(s: string): (r: string)
    ensures '/' !in r && r != "."
    ensures |r| <= |s|
    ensures var last := s[LastIndexOf(s, '/') + 1..];
            last != "" && last != "." ==> r == last
  {
    var slash := LastIndexOf(s, '/');
    var last := s[slash + 1..];
    if last != "" && last != "." then last
    else if slash < 0 then ""
    else Name(s[..slash])
  }

  /** The character at `k` of `t` is a '/' or a "." standing alone between two
      '/' (or a '/' and the end). */
  predicate TrailerAt(t: string, k: int)
    requires 0 <= k < |t|
  {
    t[k] == '/' || (t[k] == '.' && 0 < k && t[k - 1] == '/' && (k + 1 == |t| || t[k + 1] == '/'))
  }

  /** What may follow the final component of a path: '/'-separated components
      that are each empty or ".". */
  predicate Trailer(t: string) {
    forall k :: 0 <= k < |t| ==> TrailerAt(t, k)
  }

  lemma TrailerConcat(a: string, b: string)
    requires Trailer(a) && Trailer(b)
    ensures Trailer(a + b)
  {
    var ab := a + b;
    forall k | 0 <= k < |ab|
      ensures TrailerAt(ab, k)
    {
      if k < |a| {
        assert TrailerAt(a, k);
        assert ab[k] == a[k];
        if a[k] != '/' {
          assert ab[k - 1] == a[k - 1];
          if k + 1 < |a| {
            assert ab[k + 1] == a[k + 1];
          } else if k + 1 < |ab| {
            assert TrailerAt(b, 0);
            assert ab[k + 1] == b[0];
          }
        }
      } else {
        var j := k - |a|;
        assert TrailerAt(b, j);
        assert ab[k] == b[j];
        if b[j] != '/' {
          assert ab[k - 1] == b[j - 1];
          if j + 1 < |b| {
            assert ab[k + 1] == b[j + 1];
          }
        }
      }
    }
  }

  /** "/" and "/." are trailers: one empty or one "." component. */
  lemma SlashTrailer(last: string)
    requires last == "" || last == "."
    ensures Trailer("/" + last)
  {
    var t := "/" + last;
    assert t[0] == '/';
    if last == "." {
      assert t[1] == '.' && |t| == 2;
    }
  }

  /** `r` occurs in `s` at `i` as a whole component followed only by a trailer. */
  predicate ComponentAt(s: string, r: string, i: int) {
    0 <= i <= |s| - |r| && s[i..i + |r|] == r && (i == 0 || s[i - 1] == '/') && Trailer(s[i + |r|..])
  }

  /** When the text after the last '/' is empty or ".", the name is that of the
      path before that '/'. */
  lemma NameStepsBack(s: string, slash: int)
    requires slash == LastIndexOf(s, '/') && slash >= 0
    requires s[slash + 1..] == "" || s[slash + 1..] == "."
    ensures Name(s) == Name(s[..slash])
  {
  }

  /** Appending an empty or "." component keeps a component followed by a trailer. */
  lemma ComponentExtends(s: string, slash: int, r: string, i: int)
    requires 0 <= slash < |s| && s[slash] == '/'
    requires s[slash + 1..] == "" || s[slash + 1..] == "."
    requires ComponentAt(s[..slash], r, i)
    ensures ComponentAt(s, r, i)
  {
    var p := s[..slash];
    var t := s[slash..];
    assert t == "/" + s[slash + 1..];
    SlashTrailer(s[slash + 1..]);
    assert s == p + t;
    assert s[i + |r|..] == p[i + |r|..] + t;
    TrailerConcat(p[i + |r|..], t);
    assert s[i..i + |r|] == p[i..i + |r|];
  }

  /** Appending an empty or "." component to a path of such components keeps it one. */
  lemma TrailerExtends(s: string, slash: int)
    requires 0 <= slash < |s| && s[slash] == '/'
    requires s[slash + 1..] == "" || s[slash + 1..] == "."
    requires Trailer("/" + s[..slash])
    ensures Trailer("/" + s)
  {
    var t := s[slash..];
    assert t == "/" + s[slash + 1..];
    SlashTrailer(s[slash + 1..]);
    TrailerConcat("/" + s[..slash], t);
    assert "/" + s == ("/" + s[..slash]) + t;
  }

  /** The name is the last component that is neither empty nor ".": a
      '/'-delimited infix of the path, at index `i`, followed only by empty and "."
      components. */
  lemma {:induction false} NameIsFinalComponent(s: string) returns (i: int)
    ensures Name(s) != "" ==> ComponentAt(s, Name(s), i)
    decreases |s|
  {
    var slash := LastIndexOf(s, '/');
    var last := s[slash + 1..];
    i := slash + 1;
    if last != "" && last != "." {
      assert s[i..i + |last|] == last && s[i + |last|..] == [];
      assert ComponentAt(s, last, i);
    } else if slash >= 0 {
      NameStepsBack(s, slash);
      i := NameIsFinalComponent(s[..slash]);
      if Name(s) != "" {
        ComponentExtends(s, slash, Name(s), i);
      }
    }
  }

  /** Without a '/', the name is "" only for "" and ".". */
  lemma NoSlashEmptyName(s: string)
    requires LastIndexOf(s, '/') < 0 && Name(s) == ""
    ensures s == "" || s == "."
  {
    assert s[LastIndexOf(s, '/') + 1..] == s;
  }

  /** The name is "" only when the text after the last '/' is empty or ".". */
  lemma EmptyNameLast(s: string)
    requires Name(s) == ""
    ensures s[LastIndexOf(s, '/') + 1..] == "" || s[LastIndexOf(s, '/') + 1..] == "."
  {
  }

  /** A path whose name is "" is made only of empty and "." components. */
  lemma {:induction false} EmptyNameIsTrailer(s: string)
    ensures Name(s) == "" ==> Trailer("/" + s)
    decreases |s|
  {
    if Name(s) == "" {
      var slash := LastIndexOf(s, '/');
      if slash < 0 {
        NoSlashEmptyName(s);
        SlashTrailer(s);
      } else {
        EmptyNameLast(s);
        NameStepsBack(s, slash);
        EmptyNameIsTrailer(s[..slash]);
        TrailerExtends(s, slash);
      }
    }
  }

  /** "dir/clip.mp3" names the file "clip.mp3". */
  lemma DirClipName(s: string)
    requires s == "dir/clip.mp3"
    ensures Name(s) == "clip.mp3"
  {
    assert s[3] == '/';
    assert forall k :: 3 < k < |s| ==> s[k] != '/';
    LastIndexOfAt(s, '/', 3);
    assert s[4..] == "clip.mp3";
  }

  /** `PurePath.suffix` on a name: from its last '.', provided that dot is neither
      the first nor the last character; otherwise "". */
  function Suffix(name: string): (r: string)
    ensures r == [] || (|r| >= 2 && |r| < |name| && r[0] == '.' && '.' !in r[1..]
                        && r == name[|name| - |r|..])
    ensures r == [] <==> (LastIndexOf(name, '.') <= 0 || LastIndexOf(name, '.') == |name| - 1)
  {
    var i := LastIndexOf(name, '.');
    if 0 < i < |name| - 1 then
      assert forall k :: 1 <= k < |name| - i ==> name[i..][k] == name[i + k];
      name[i..]
    else ""
  }

  /** `str.lower()` on ASCII letters; other characters are left alone. */
  function LowerChar(c: char): char {
    if 'A' <= c <= 'Z' then (c as int + 32) as char else c
  }

  function Lower(s: string): (r: string)
    ensures |r| == |s| && forall i :: 0 <= i < |s| ==> r[i] == LowerChar(s[i])
  {
    seq(|s|, i requires 0 <= i < |s| => LowerChar(s[i]))
  }

  /** `Path(filename).suffix.lower()`: empty when the name has no suffix, and
      otherwise a dot followed by at least one character, none of them a dot, a '/'
      or an upper-case ASCII letter. */
  function Extension(filename: string): (r: string)
    ensures r == "" <==> Suffix(Name(filename)) == ""
    ensures r != "" ==> |r| >= 2 && r[0] == '.' && '.' !in r[1..] && '/' !in r
    ensures forall k :: 0 <= k < |r| ==> !('A' <= r[k] <= 'Z')
  {
    var x := Suffix(Name(filename));
    SuffixOfName(filename);
    LowerKeepsSuffixShape(x);
    Lower(x)
  }

  /** The suffix of a name is "" or a dot followed by at least one character, none
      of them a dot or a '/'. */
  lemma SuffixOfName(filename: string)
    ensures var x := Suffix(Name(filename));
            x == "" || (|x| >= 2 && x[0] == '.' && '.' !in x[1..] && '/' !in x)
  {
    var n := Name(filename);
    var x := Suffix(n);
    if x != "" {
      forall k | 0 <= k < |x| ensures x[k] != '/' {
        assert x[k] == n[|n| - |x| + k];
      }
    }
  }

  /** Lowering keeps a suffix a suffix and leaves no upper-case ASCII letter. */
  lemma LowerKeepsSuffixShape(x: string)
    requires x == "" || (|x| >= 2 && x[0] == '.' && '.' !in x[1..] && '/' !in x)
    ensures var r := Lower(x);
            && (r == "" <==> x == "")
            && (r != "" ==> |r| >= 2 && r[0] == '.' && '.' !in r[1..] && '/' !in r)
            && forall k :: 0 <= k < |r| ==> !('A' <= r[k] <= 'Z')
  {
    var r := Lower(x);
    forall k | 0 <= k < |r| ensures !('A' <= r[k] <= 'Z') && (r[k] == '/' <==> x[k] == '/') && (r[k] == '.' <==> x[k] == '.') {
      assert r[k] == LowerChar(x[k]);
    }
    if r != "" {
      forall j | 0 <= j < |r| - 1 ensures r[1..][j] != '.' {
        assert r[1..][j] == r[j + 1] && x[1..][j] == x[j + 1];
      }
    }
  }

  predicate HasSupportedExtension(filename: string) {
    Extension(filename) in SupportedExtensions
  }

  predicate SupportedMime(mime: string) {
    mime in SupportedAudioTypes || mime in SupportedVideoTypes
  }

  /** `is_supported_media_type`: falsy names are refused, a supported extension is
      accepted outright, and otherwise the guessed MIME type decides. */
  function IsSupportedMediaType(filename: Option<string>, guess: string -> Option<string>): (ok: bool)
    ensures filename.None? || filename.value == "" ==> !ok
    ensures filename.Some? && filename.value != "" && HasSupportedExtension(filename.value) ==> ok
  {
    if filename.None? || filename.value == "" then false
    else if HasSupportedExtension(filename.value) then true
    else
      var mime := guess(filename.value);
      if mime.Some? && mime.value != "" then
        SupportedMime(mime.value)
      else false
  }

  /** A non-empty name whose extension is not supported is accepted exactly when
      the MIME oracle guesses an audio or video type of the two fixed sets. */
  lemma MimeFallback(filename: string, guess: string -> Option<string>)
    requires filename != "" && !HasSupportedExtension(filename)
    ensures IsSupportedMediaType(Some(filename), guess) <==>
              guess(filename).Some? && SupportedMime(guess(filename).value)
  {
    var m := guess(filename);
    if m.Some? && m.value == "" {
      EmptyMimeUnsupported();
    }
  }

  /** Every type of the two sets is non-empty, so a guessed "" is refused either way. */
  lemma EmptyMimeUnsupported()
    ensures !SupportedMime("")
  {
    assert forall t :: t in SupportedAudioTypes ==> |t| > 0;
    assert forall t :: t in SupportedVideoTypes ==> |t| > 0;
  }

  // Case-insensitivity of the extension test.

  lemma LowerSlice(s: string, a: nat, b: nat)
    requires a <= b <= |s|
    ensures Lower(s)[a..b] == Lower(s[a..b])
  {
  }

  /** Lowering keeps every '/' and '.' where it was, so the split points agree. */
  lemma {:induction false} LastIndexOfLower(s: string, c: char)
    requires c == '/' || c == '.'
    ensures LastIndexOf(Lower(s), c) == LastIndexOf(s, c)
  {
    if |s| > 0 {
      LowerSlice(s, 0, |s| - 1);
      LastIndexOfLower(s[..|s| - 1], c);
    }
  }

  lemma {:induction false} NameLower(s: string)
    ensures Name(Lower(s)) == Lower(Name(s))
    decreases |s|
  {
    var slash := LastIndexOf(s, '/');
    LastIndexOfLower(s, '/');
    LowerSlice(s, slash + 1, |s|);
    var last := s[slash + 1..];
    assert Lower(s)[slash + 1..] == Lower(last);
    assert Lower(last) == "." <==> last == ".";
    if (last == "" || last == ".") && slash >= 0 {
      LowerSlice(s, 0, slash);
      NameLower(s[..slash]);
    }
  }

  lemma SuffixLower(name: string)
    ensures Suffix(Lower(name)) == Lower(Suffix(name))
  {
    LastIndexOfLower(name, '.');
    var i := LastIndexOf(name, '.');
    assert |Lower(name)| == |name|;
    if 0 < i < |name| - 1 {
      LowerSlice(name, i, |name|);
      assert Lower(name)[i..] == Lower(name)[i..|name|];
      assert name[i..] == name[i..|name|];
      assert Lower(name)[i..] == Lower(name[i..]);
    }
  }

  /** The extension is the lowered suffix of the lowered name: only the case of the
      letters separates two names that lower to the same string. */
  lemma ExtensionOfLowered(f: string)
    ensures Extension(f) == Suffix(Name(Lower(f)))
  {
    NameLower(f);
    SuffixLower(Name(f));
  }

  /** Two file names that differ only in the case of ASCII letters have the same
      extension, so one passes the extension test exactly when the other does. */
  lemma ExtensionCaseInsensitive(f: string, g: string)
    requires Lower(f) == Lower(g)
    ensures Extension(f) == Extension(g)
    ensures HasSupportedExtension(f) <==> HasSupportedExtension(g)
  {
    ExtensionOfLowered(f);
    ExtensionOfLowered(g);
  }

  /** A position holding `c` with no `c` after it is the last index of `c`. */
  lemma LastIndexOfAt(s: string, c: char, i: nat)
    requires i < |s| && s[i] == c
    requires forall k :: i < k < |s| ==> s[k] != c
    ensures LastIndexOf(s, c) == i
  {
  }

  /** A text without upper-case ASCII letters is its own lower-case form. */
  lemma LowerOfLowercase(s: string)
    requires forall k :: 0 <= k < |s| ==> !('A' <= s[k] <= 'Z')
    ensures Lower(s) == s
  {
  }

  /** "clip.mp3" is a plain file name: it is its own final component. */
  lemma ClipName(n: string)
    requires n == "clip.mp3"
    ensures Name(n) == n
  {
    assert forall k :: 0 <= k < |n| ==> n[k] != '/';
  }

  /** The suffix of "clip.mp3" is ".mp3": its only dot is at index 4. */
  lemma ClipSuffix(n: string)
    requires n == "clip.mp3"
    ensures Suffix(n) == ".mp3"
  {
    assert n[4] == '.';
    assert forall k :: 4 < k < |n| ==> n[k] != '.';
    LastIndexOfAt(n, '.', 4);
    assert n[4..] == ".mp3";
  }

  /** The suffix of the name "clip.mp3" is ".mp3". */
  lemma ClipSuffixOfName(n: string)
    requires n == "clip.mp3"
    ensures Suffix(Name(n)) == ".mp3"
  {
    ClipName(n);
    ClipSuffix(n);
  }

  lemma LowerMp3()
    ensures Lower(".mp3") == ".mp3"
  {
    LowerOfLowercase(".mp3");
  }

  lemma ClipExtension(n: string)
    requires n == "clip.mp3"
    ensures Extension(n) == ".mp3"
  {
    ClipSuffixOfName(n);
    LowerMp3();
  }

  lemma LowerClip()
    ensures Lower("CLIP.MP3") == Lower("clip.mp3")
  {
    var u, l := Lower("CLIP.MP3"), Lower("clip.mp3");
    assert u[0] == l[0] && u[1] == l[1] && u[2] == l[2] && u[3] == l[3];
    assert u[4] == l[4] && u[5] == l[5] && u[6] == l[6] && u[7] == l[7];
  }

  /** "CLIP.MP3" and "clip.mp3" are both accepted, whatever the MIME oracle says. */
  lemma UpperCaseClipAccepted(guess: string -> Option<string>)
    ensures IsSupportedMediaType(Some("clip.mp3"), guess)
    ensures IsSupportedMediaType(Some("CLIP.MP3"), guess)
  {
    ClipExtension("clip.mp3");
    LowerClip();
    ExtensionCaseInsensitive("CLIP.MP3", "clip.mp3");
  }

  // `get_file_type`.

  /** One call of `mimetypes.guess_type` on a path: it returns a guess or raises. */
  datatype GuessCall = Returned(mime: Option<string>) | Raised(error: string)

  /** `get_file_type` as written: the `try` branch makes the call, discards its
      value and falls off the end, so the result is None; the `except` branch
      repeats the same call, which raises the same error again. */
  function GetFileTypeAsWritten(call: GuessCall): (r: Result<Option<string>, string>)
    ensures r.Ok? ==> r.value == None
    ensures r.Err? <==> call.Raised?
  {
    match call
    case Returned(_) => Ok(None)
    case Raised(e) => Err(e)
  }

  /** `get_file_type` as its docstring describes it: the guessed type is returned. */
  function GetFileType(call: GuessCall): (r: Result<Option<string>, string>)
    ensures call.Returned? ==> r == Ok(call.mime)
    ensures call.Raised? ==> r == Err(call.error)
  {
    match call
    case Returned(m) => Ok(m)
    case Raised(e) => Err(e)
  }

  /** Every guess the oracle makes is lost by the code as written. */
  lemma GetFileTypeLosesGuess(mime: string)
    ensures GetFileTypeAsWritten(Returned(Some(mime))) == Ok(None)
    ensures GetFileType(Returned(Some(mime))) == Ok(Some(mime))
  {
  }
}
