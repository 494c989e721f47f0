/**
 * Turning what the user typed into the URL handed to the video extractor
 * (`validate_youtube_input` and `normalize_youtube_url` in app.py).
 */
module Normalizer {
  import opened Wrappers
  import opened Text

  /** The canonical watch URL of a bare video id is this prefix followed by the id. */
  const WatchPrefix := "https://www.youtube.com/watch?v="

  /** Longest trimmed input accepted. */
  const MaxInputLength := 2048

  /** The three ways validation rejects an input, each with its `ValueError` text. */
  datatype InputError = Blank | InvalidChars | TooLong
  {
    function Message(): string {
      match this
      case Blank => "Please enter a YouTube video ID or URL"
      case InvalidChars => "Invalid characters in URL"
      case TooLong => "URL too long"
    }
  }

  predicate HasScheme(s: string) {
    StartsWith(s, "http://") || StartsWith(s, "https://")
  }

  /** One of the characters `<`, `>`, `"`, `'` occurs in `s`. */
  predicate HasForbiddenChar(s: string) {
    '<' in s || '>' in s || '"' in s || '\'' in s
  }

  /** Eleven characters that, with `-` and `_` removed, are non-empty and alphanumeric. */
  predicate LooksLikeVideoId(t: string) {
    |t| == 11 && IsAlnum(RemoveChar(RemoveChar(t, '-'), '_'))
  }

  predicate MentionsYouTube(t: string) {
    Contains(t, "youtube.com") || Contains(t, "youtu.be")
  }

  /** The characters of a bare YouTube video id. */
  predicate IsIdChar(c: char) {
    IsAlnumChar(c) || c == '-' || c == '_'
  }

  /** Which `return` of `normalize_youtube_url` fires, in the source's order. */
  datatype Branch = FullUrl | VideoId | PartialUrl | PartialUrlAsIs | Fallback

  /**
   * The first-match classification of a trimmed input. The second return of
   * the partial-URL branch is dead: a scheme-prefixed input was already
   * classified as a full URL.
   */
  function Classify(t: string): (b: Branch)
    ensures b == FullUrl <==> HasScheme(t)
    ensures b != PartialUrlAsIs
  {
    if HasScheme(t) then FullUrl
    else if LooksLikeVideoId(t) then VideoId
    else if MentionsYouTube(t) then (if !HasScheme(t) then PartialUrl else PartialUrlAsIs)
    else Fallback
  }

  /**
   * `normalize_youtube_url`: the trimmed input itself, or it behind
   * `https://`, or it behind the watch-URL prefix. The result always carries
   * a scheme and has no surrounding whitespace. An input that already
   * carries a scheme comes back trimmed and otherwise unchanged; one with
   * neither a scheme nor a YouTube host (a video id, or anything else) is
   * put behind the watch-URL prefix.
   */
  function NormalizeUrl(s: string): (r: string)
    ensures HasScheme(r)
    ensures IsStripped(r)
    ensures r == Strip(s) || r == "https://" + Strip(s) || r == WatchPrefix + Strip(s)
    ensures HasScheme(Strip(s)) ==> r == Strip(s)
    ensures !HasScheme(Strip(s)) && !MentionsYouTube(Strip(s)) ==> r == WatchPrefix + Strip(s)
  {
    var t := Strip(s);
    var b := Classify(t);
    PrefixedIsUrl("https://", t);
    PrefixedIsUrl(WatchPrefix, t);
    assert b == PartialUrl ==> t != [];
    match b
    case FullUrl => t
    case VideoId => WatchPrefix + t
    case PartialUrl => "https://" + t
    case PartialUrlAsIs => t
    case Fallback => WatchPrefix + t
  }

  /**
   * Both prefixes normalisation adds carry a scheme and keep a trimmed
   * string trimmed (for `https://`, when the string is not empty).
   */
  lemma PrefixedIsUrl(p: string, t: string)
    requires p == "https://" || p == WatchPrefix
    requires IsStripped(t)
    ensures HasScheme(p + t)
    ensures p == WatchPrefix || t != [] ==> IsStripped(p + t)
  {
    assert (p + t)[..8] == p[..8] == "https://";
    assert (p + t)[0] == 'h';
    if t != [] {
      assert (p + t)[|p + t| - 1] == t[|t| - 1];
    } else {
      assert p + t == p;
    }
  }

  /**
   * `validate_youtube_input`: rejects, in this order, an input that is all
   * whitespace, a trimmed input with a forbidden character, and a trimmed
   * input longer than 2048 characters; otherwise normalises it. An accepted
   * input yields a URL with a scheme, free of the forbidden characters, and
   * at most the watch prefix longer than the length bound.
   */
  function ValidateInput(s: string): (r: Result<string, InputError>)
    ensures r == Failure(Blank) <==> forall i :: 0 <= i < |s| ==> IsSpace(s[i])
    ensures r == Failure(InvalidChars) <==> Strip(s) != [] && HasForbiddenChar(Strip(s))
    ensures r == Failure(TooLong) <==>
      Strip(s) != [] && !HasForbiddenChar(Strip(s)) && |Strip(s)| > MaxInputLength
    ensures r.Success? ==> r.value == NormalizeUrl(s)
    ensures r.Success? ==>
      HasScheme(r.value) && !HasForbiddenChar(r.value)
      && |r.value| <= MaxInputLength + |WatchPrefix|
  {
    var t := Strip(s);
    assert Strip(t) == t;
    if t == [] then Failure(Blank)
    else if HasForbiddenChar(t) then Failure(InvalidChars)
    else if |t| > MaxInputLength then Failure(TooLong)
    else
      NormalizedHasNoForbiddenChar(t);
      Success(NormalizeUrl(t))
  }

  /**
   * Normalising adds only prefixes free of the forbidden characters and at
   * most as long as the watch prefix.
   */
  lemma NormalizedHasNoForbiddenChar(t: string)
    requires IsStripped(t) && !HasForbiddenChar(t)
    ensures !HasForbiddenChar(NormalizeUrl(t))
    ensures |NormalizeUrl(t)| <= |t| + |WatchPrefix|
  {
    assert Strip(t) == t;
    PrefixedKeepsOutForbidden(t, NormalizeUrl(t));
  }

  lemma PrefixedKeepsOutForbidden(t: string, r: string)
    requires !HasForbiddenChar(t)
    requires r == t || r == "https://" + t || r == WatchPrefix + t
    ensures !HasForbiddenChar(r) && |r| <= |t| + |WatchPrefix|
  {
    assert !HasForbiddenChar("https://");
    assert !HasForbiddenChar(WatchPrefix);
  }

  /** Normalising a normalised URL changes nothing. */
  lemma NormalizeIdempotent(s: string)
    ensures NormalizeUrl(NormalizeUrl(s)) == NormalizeUrl(s)
  {
  }

  /** A string that mentions a YouTube host contains a dot. */
  lemma {:induction false} MentionImpliesDot(t: string)
    requires MentionsYouTube(t)
    ensures '.' in t
  {
    if Contains(t, "youtube.com") {
      ContainsChar(t, "youtube.com", 7);
    } else {
      ContainsChar(t, "youtu.be", 5);
    }
  }

  /**
   * Any eleven id characters become the watch URL of that id, including the
   * ids made only of `-` and `_`, which miss the id branch (`isalnum` of the
   * empty string is false) but reach the same URL through the fallback.
   */
  lemma {:induction false} VideoIdBecomesWatchUrl(s: string)
    requires |s| == 11 && forall i :: 0 <= i < |s| ==> IsIdChar(s[i])
    ensures NormalizeUrl(s) == WatchPrefix + s
  {
    VideoIdShape(s);
    assert Strip(s) == s;
  }

  /** An id-shaped string is trimmed, has no scheme and names no YouTube host. */
  lemma {:induction false} VideoIdShape(s: string)
    requires |s| == 11 && forall i :: 0 <= i < |s| ==> IsIdChar(s[i])
    ensures IsStripped(s) && !HasScheme(s) && !MentionsYouTube(s)
  {
    assert s[..7][4] == s[4] != ':' == "http://"[4];
    assert s[..8][5] == s[5] != ':' == "https://"[5];
    if MentionsYouTube(s) {
      MentionImpliesDot(s);
    }
  }

  /**
   * A trimmed input without a scheme that mentions youtube.com or youtu.be
   * gets `https://` in front. It never looks like a video id, because it
   * contains a dot.
   */
  lemma {:induction false} PartialUrlGetsScheme(s: string)
    requires !HasScheme(Strip(s)) && MentionsYouTube(Strip(s))
    ensures NormalizeUrl(s) == "https://" + Strip(s)
  {
    var t := Strip(s);
    MentionImpliesDot(t);
    assert '.' in RemoveChar(RemoveChar(t, '-'), '_');
    assert !LooksLikeVideoId(t);
  }
}
