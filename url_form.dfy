/**
 * The input side of the shortener form (`UrlShortenerForm.tsx`): the scheme
 * rule shared with the page that stores links, the URL check, the custom-slug
 * field and the submit guards.
 */
module UrlForm {
  import opened Wrappers
  import opened Seqs
  import opened Text

  /** The regular expression `^https?://`, case-sensitive. */
  predicate HasScheme(s: string) {
    StartsWith(s, "http://") || StartsWith(s, "https://")
  }

  /** `s` itself when it already matches `^https?://`, otherwise `"https://" + s`. */
  function WithDefaultScheme(s: string): (r: string)
    ensures HasScheme(r)
    ensures |s| <= |r| && r[|r| - |s|..] == s
    ensures HasScheme(s) ==> r == s
    ensures !HasScheme(s) ==> r[..|r| - |s|] == "https://"
  {
    if HasScheme(s) then s else "https://" + s
  }

  /** Applying the default scheme to a string that has just received it changes nothing. */
  lemma WithDefaultSchemeIdempotent(s: string)
    ensures WithDefaultScheme(WithDefaultScheme(s)) == WithDefaultScheme(s)
  {
  }

  /**
   * `validateUrl`: whether the URL parser accepts the input, with `https://`
   * put in front when the input has no scheme. The parser (`new URL`, which
   * throws on a string it rejects) is the parameter `parses`.
   */
  function ValidateUrl(input: string, parses: string -> bool): (ok: bool)
    ensures HasScheme(input) ==> (ok <==> parses(input))
    ensures !HasScheme(input) ==> (ok <==> parses("https://" + input))
  {
    parses(WithDefaultScheme(input))
  }

  /** The character class `[a-zA-Z0-9-_]`. */
  predicate IsSlugChar(c: char) {
    ('a' <= c <= 'z') || ('A' <= c <= 'Z') || ('0' <= c <= '9') || c == '-' || c == '_'
  }

  predicate IsSlugText(s: string) {
    forall i :: 0 <= i < |s| ==> IsSlugChar(s[i])
  }

  /** `value.replace(/[^a-zA-Z0-9-_]/g, '')`: the input with every character outside the class deleted. */
  function SanitizeSlug(s: string): (r: string)
    ensures IsSlugText(r)
    ensures IsSubsequence(r, s)
    ensures forall c :: multiset(r)[c] == if IsSlugChar(c) then multiset(s)[c] else 0
  {
    FilterIsSubsequence(IsSlugChar, s);
    forall c ensures multiset(Filter(IsSlugChar, s))[c] == if IsSlugChar(c) then multiset(s)[c] else 0 {
      FilterCounts(IsSlugChar, s, c);
    }
    Filter(IsSlugChar, s)
  }

  /** Input that holds only allowed characters passes the sanitiser unchanged. */
  lemma SanitizeSlugKeepsSlugText(s: string)
    requires IsSlugText(s)
    ensures SanitizeSlug(s) == s
  {
    FilterKeepsAll(IsSlugChar, s);
  }

  lemma SanitizeSlugIdempotent(s: string)
    ensures SanitizeSlug(SanitizeSlug(s)) == SanitizeSlug(s)
  {
    SanitizeSlugKeepsSlugText(SanitizeSlug(s));
  }

  /** `maxLength={30}` on the custom-slug input. */
  const MaxSlugLength: nat := 30

  /**
   * The custom-slug field after an edit: the browser caps the edited value at
   * `maxLength` characters, then the change handler sanitises it.
   */
  function SlugFieldValue(edited: string): (r: string)
    ensures |r| <= MaxSlugLength
    ensures IsSlugText(r)
    ensures IsSubsequence(r, edited)
  {
    var capped := Take(edited, MaxSlugLength);
    assert IsSubsequence(capped, edited) by {
      SubsequenceReflexive(edited);
      TakeOfSubsequence(edited, edited, MaxSlugLength);
    }
    SubsequenceTransitive(SanitizeSlug(capped), capped, edited);
    SanitizeSlug(capped)
  }

  const EmptyUrlMessage := "Please enter a URL"
  const InvalidUrlMessage := "Please enter a valid URL (e.g., example.com or https://example.com)"

  /** What a submit does: show an error under the URL field, or call `onShorten`. */
  datatype Submission =
    | UrlError(message: string)
    | Shorten(url: string, customSlug: Option<string>)

  /**
   * `handleSubmit`: a URL that is empty after trimming, or one the URL check
   * rejects, only sets the field's error; otherwise the raw URL and the
   * custom slug (absent when the field is empty) go to `onShorten`.
   */
  function HandleSubmit(url: string, customSlug: string, parses: string -> bool): (r: Submission)
    ensures r == UrlError(EmptyUrlMessage) <==> forall i :: 0 <= i < |url| ==> IsWhitespace(url[i])
    ensures r == UrlError(InvalidUrlMessage) <==> Trim(url) != [] && !ValidateUrl(url, parses)
    ensures r.Shorten? <==> Trim(url) != [] && ValidateUrl(url, parses)
    ensures r.Shorten? ==> r.url == url
    ensures r.Shorten? ==> (r.customSlug == None <==> customSlug == [])
    ensures r.Shorten? && r.customSlug.Some? ==> r.customSlug.value == customSlug
  {
    if Trim(url) == [] then UrlError(EmptyUrlMessage)
    else if !ValidateUrl(url, parses) then UrlError(InvalidUrlMessage)
    else Shorten(url, if customSlug == [] then None else Some(customSlug))
  }

  /** The URL field's error after `handleSubmit`: the message it sets, or cleared when the URL goes to `onShorten`. */
  function FieldErrorAfterSubmit(url: string, customSlug: string, parses: string -> bool): (e: string)
    ensures e == [] <==> HandleSubmit(url, customSlug, parses).Shorten?
    ensures HandleSubmit(url, customSlug, parses).UrlError? ==> e == HandleSubmit(url, customSlug, parses).message
  {
    match HandleSubmit(url, customSlug, parses)
    case UrlError(message) => message
    case Shorten(_, _) => []
  }
}
