/**
 * What the HTTP layer hands to the rest of the pipeline. A GET either produced no
 * response (transport failure, retries exhausted) or a response with a status, a body
 * text and that body's parsed form (the DOM view or JSON value the caller looks at).
 */
module Fetch {
  import opened Text

  datatype Fetched<B> = NoResponse | Response(status: int, text: string, body: B)

  /**
   * Python truthiness of `_safe_get`'s result: `None` is false, and a
   * `requests.Response` is true exactly when `raise_for_status` would not raise, that is
   * unless its status is a client or server error (400 to 599).
   */
  predicate Ok<B>(r: Fetched<B>) {
    r.Response? && !(400 <= r.status < 600)
  }

  /** The five anti-automation phrases, in the order the source lists them. */
  const CaptchaPhrases: seq<string> :=
    ["captcha", "are you human", "unusual traffic", "bot detection", "verify you are"]

  /** `any(t in text for t in phrases)`. */
  function AnyContained(text: string, phrases: seq<string>): (b: bool)
    ensures b <==> exists i :: 0 <= i < |phrases| && Contains(text, phrases[i])
  {
    if phrases == [] then false
    else Contains(text, phrases[0]) || AnyContained(text, phrases[1..])
  }

  /** `_is_captcha_page_text`: the lower-cased text contains one of the five phrases. */
  function IsCaptchaPageText(text: string): (b: bool)
    ensures b <==> || Contains(Lower(text), "captcha")
                   || Contains(Lower(text), "are you human")
                   || Contains(Lower(text), "unusual traffic")
                   || Contains(Lower(text), "bot detection")
                   || Contains(Lower(text), "verify you are")
  {
    var phrases := CaptchaPhrases;
    assert |phrases| == 5 && phrases[0] == "captcha" && phrases[1] == "are you human"
      && phrases[2] == "unusual traffic" && phrases[3] == "bot detection" && phrases[4] == "verify you are";
    AnyContained(Lower(text), phrases)
  }

  lemma LowerIdempotent(s: string)
    ensures Lower(Lower(s)) == Lower(s)
  {
  }

  /** The check is case-insensitive: lower-casing the page first changes nothing. */
  lemma CaptchaIgnoresCase(text: string)
    ensures IsCaptchaPageText(Lower(text)) == IsCaptchaPageText(text)
  {
    LowerIdempotent(text);
  }
}
