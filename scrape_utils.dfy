// The scraping helpers of linkedin_scraper/core/utils.py: the retry loop, the
// rate-limit decision, the selector tip, the scroll loop and the "see more"
// clicking loop.
//
// What the page or the wrapped coroutine answers at each step is an input: a
// function from the attempt number to what that attempt observes.

module ScrapeUtils {
  import opened Wrappers
  import opened Text

  /** The first `k < n` that `p` holds for. */
  function FirstIndex(n: int, p: nat -> bool): (r: Option<nat>)
    ensures r.Some? ==> r.value < n && p(r.value)
    ensures r.Some? ==> forall k: nat :: k < r.value ==> !p(k)
    ensures r.None? ==> forall k: nat :: k < n ==> !p(k)
  {
    FirstIndexFrom(0, n, p)
  }

  function FirstIndexFrom(i: nat, n: int, p: nat -> bool): (r: Option<nat>)
    requires forall k: nat :: k < i ==> !p(k)
    ensures r.Some? ==> i <= r.value < n && p(r.value)
    ensures r.Some? ==> forall k: nat :: k < r.value ==> !p(k)
    ensures r.None? ==> forall k: nat :: k < n ==> !p(k)
    decreases n - i
  {
    if n <= i then None
    else if p(i) then Some(i)
    else FirstIndexFrom(i + 1, n, p)
  }

  /** The first index is the one no earlier index passes. */
  lemma FirstIndexIs(n: int, p: nat -> bool, i: nat)
    requires i < n && p(i) && forall k: nat :: k < i ==> !p(k)
    ensures FirstIndex(n, p) == Some(i)
  {
    var r := FirstIndex(n, p);
    if r.Some? {
      assert !(r.value < i) && !(i < r.value);
    }
  }

  lemma FirstIndexNone(n: int, p: nat -> bool)
    requires forall k: nat :: k < n ==> !p(k)
    ensures FirstIndex(n, p) == None
  {
  }

  /** The number of loop iterations `range(n)` makes: none for `n <= 0`. */
  function Iterations(n: int): nat {
    if n <= 0 then 0 else n
  }

  // ---- retry_async (lines 16-54) ----

  /** What one call of the wrapped coroutine does: return a value or raise an error of some kind. */
  datatype Outcome<T> = Ok(value: T) | Fails(error: string)

  /**
   * How the wrapper ends: it returns a value, raises an error, or, when no
   * attempt was made at all, executes `raise None` (a `TypeError`).
   */
  datatype RetryResult<T> = Returned(value: T) | Raised(error: string) | RaisedNone

  /** Does the attempt end the loop? A success returns; an error outside `exceptions` propagates. */
  predicate Stops<T>(o: Outcome<T>, caught: string -> bool) {
    o.Ok? || !caught(o.error)
  }

  function StopsAt<T>(call: nat -> Outcome<T>, caught: string -> bool): nat -> bool {
    (k: nat) => Stops(call(k), caught)
  }

  /** Python `backoff ** attempt`, without floating-point rounding. */
  function Pow(b: real, n: nat): real {
    if n == 0 then 1.0 else b * Pow(b, n - 1)
  }

  /**
   * The wrapper of `retry_async(max_attempts, backoff, exceptions)`: `call(k)`
   * is what attempt `k` does, `caught` says whether an error is an instance of
   * one of `exceptions`, and `waits` lists the sleeps in order.
   */
  method RetryAsync<T>(call: nat -> Outcome<T>, maxAttempts: int, caught: string -> bool, backoff: real)
    returns (r: RetryResult<T>, calls: nat, waits: seq<real>)
    ensures calls <= Iterations(maxAttempts)
    ensures match FirstIndex(maxAttempts, StopsAt(call, caught))
      case Some(k) =>
        calls == k + 1 && r == (if call(k).Ok? then Returned(call(k).value) else Raised(call(k).error))
      case None =>
        calls == Iterations(maxAttempts) &&
        (maxAttempts <= 0 ==> r == RaisedNone) &&
        (maxAttempts > 0 ==> r.Raised? && call(maxAttempts - 1) == Fails(r.error))
    ensures |waits| == (if calls == 0 then 0 else calls - 1)
    ensures forall k :: 0 <= k < |waits| ==> waits[k] == Pow(backoff, k)
  {
    var lastException: Option<string> := None;
    calls := 0;
    waits := [];
    var attempt := 0;
    while attempt < maxAttempts
      invariant 0 <= attempt == calls <= Iterations(maxAttempts)
      invariant forall k: nat :: k < attempt ==> !StopsAt(call, caught)(k)
      invariant attempt == 0 ==> lastException == None
      invariant attempt > 0 ==> lastException.Some? && call(attempt - 1) == Fails(lastException.value)
      invariant |waits| == (if attempt > 0 && attempt == maxAttempts then attempt - 1 else attempt)
      invariant forall k :: 0 <= k < |waits| ==> waits[k] == Pow(backoff, k)
    {
      var outcome := call(attempt);
      calls := calls + 1;
      match outcome {
        case Ok(v) =>
          FirstIndexIs(maxAttempts, StopsAt(call, caught), attempt);
          r := Returned(v);
          return;
        case Fails(e) =>
          if !caught(e) {
            FirstIndexIs(maxAttempts, StopsAt(call, caught), attempt);
            r := Raised(e);
            return;
          }
          lastException := Some(e);
          if attempt < maxAttempts - 1 {
            waits := waits + [Pow(backoff, attempt)];
          }
      }
      attempt := attempt + 1;
    }
    r := if lastException.Some? then Raised(lastException.value) else RaisedNone;
  }

  // ---- detect_rate_limit (lines 57-105) ----

  datatype RateLimitError = RateLimitError(message: string, suggestedWait: nat)

  /** What a page read gives: a value, Playwright's `TimeoutError`, or another error. */
  datatype Probe<T> = Read(value: T) | TimedOut | Failed(error: string)

  /** How a check ends: normally, by raising `RateLimitError`, or by raising another error. */
  datatype Check = Clear | Limited(limit: RateLimitError) | Propagates(error: string)

  const CheckpointMessage :=
    "LinkedIn security checkpoint detected. You may need to verify your identity or wait before continuing."
  const CaptchaMessage := "CAPTCHA challenge detected. Manual intervention required."
  const BodyMessage := "Rate limit message detected on page."
  const RateLimitPhrases := ["too many requests", "rate limit", "slow down", "try again later"]

  predicate UrlChallenged(url: string) {
    Contains(url, "linkedin.com/checkpoint") || Contains(url, "authwall")
  }

  predicate MentionsRateLimit(text: string) {
    exists i :: 0 <= i < |RateLimitPhrases| && Contains(Lower(text), RateLimitPhrases[i])
  }

  /** Lines 80-85, the body of the `try`: a failed count raises its error, a positive one raises the CAPTCHA limit. */
  function CaptchaProbe(count: Probe<nat>): Check {
    match count
    case Read(n) => if n > 0 then Limited(RateLimitError(CaptchaMessage, 3600)) else Clear
    case TimedOut => Propagates("TimeoutError")
    case Failed(e) => Propagates(e)
  }

  /** `except Exception: pass`: every error raised here, `RateLimitError` included, is an `Exception`. */
  function CatchException(c: Check): (r: Check)
    ensures r == Clear
  {
    match c
    case Clear => Clear
    case Limited(_) => Clear
    case Propagates(_) => Clear
  }

  /** Lines 90-105: the lowered body text is searched for the phrases; only a timeout is swallowed. */
  function BodyCheck(body: Probe<Option<string>>): (r: Check)
    ensures r.Limited? <==> body.Read? && body.value.Some? && MentionsRateLimit(body.value.value)
    ensures r.Limited? ==> r.limit == RateLimitError(BodyMessage, 1800)
    ensures r.Propagates? <==> body.Failed?
  {
    match body
    case Read(text) =>
      if text.Some? && text.value != [] && MentionsRateLimit(text.value) then
        Limited(RateLimitError(BodyMessage, 1800))
      else Clear
    case TimedOut => Clear
    case Failed(e) => Propagates(e)
  }

  /** `detect_rate_limit` as written: the URL first, then the CAPTCHA probe inside its `try`, then the body. */
  function DetectRateLimit(url: string, captcha: Probe<nat>, body: Probe<Option<string>>): (r: Check)
    ensures UrlChallenged(url) ==> r == Limited(RateLimitError(CheckpointMessage, 3600))
  {
    if UrlChallenged(url) then Limited(RateLimitError(CheckpointMessage, 3600))
    else
      var captchaOutcome := CatchException(CaptchaProbe(captcha));
      if !captchaOutcome.Clear? then captchaOutcome else BodyCheck(body)
  }

  /**
   * As written, the CAPTCHA probe decides nothing: a page showing a CAPTCHA
   * frame on a clean URL with a clean body passes.
   */
  lemma CaptchaSwallowedAsWritten(url: string, captcha: Probe<nat>, body: Probe<Option<string>>)
    ensures !UrlChallenged(url) ==> DetectRateLimit(url, captcha, body) == BodyCheck(body)
    ensures !UrlChallenged(url) && body == Read(None) ==> DetectRateLimit(url, Read(1), body) == Clear
  {
  }

  /** The evident intent: the CAPTCHA error leaves the function, and only probe failures are swallowed. */
  function DetectRateLimitCorrected(url: string, captcha: Probe<nat>, body: Probe<Option<string>>): (r: Check)
    ensures UrlChallenged(url) ==> r == Limited(RateLimitError(CheckpointMessage, 3600))
  {
    if UrlChallenged(url) then Limited(RateLimitError(CheckpointMessage, 3600))
    else
      var captchaOutcome := CaptchaProbe(captcha);
      if captchaOutcome.Limited? then captchaOutcome else BodyCheck(body)
  }

  /**
   * The corrected decision: the URL rule first, then a positive CAPTCHA count
   * (wait 3600), then the body phrases (wait 1800); a failed count is ignored.
   */
  lemma DetectRateLimitCorrectedRules(url: string, captcha: Probe<nat>, body: Probe<Option<string>>)
    ensures !UrlChallenged(url) && captcha.Read? && captcha.value > 0 ==>
      DetectRateLimitCorrected(url, captcha, body) == Limited(RateLimitError(CaptchaMessage, 3600))
    ensures !UrlChallenged(url) && !(captcha.Read? && captcha.value > 0) ==>
      DetectRateLimitCorrected(url, captcha, body) == BodyCheck(body)
    ensures DetectRateLimitCorrected(url, captcha, body).Limited? <==>
      UrlChallenged(url) || (captcha.Read? && captcha.value > 0) ||
      (body.Read? && body.value.Some? && MentionsRateLimit(body.value.value))
  {
  }

  // ---- _get_selector_suggestions (lines 145-151) ----

  const IdTip := "Tip: ID selectors may be dynamic. Consider using data attributes or text content."
  const ClassTip := "Tip: LinkedIn class names change frequently. This selector may need updating."

  function SelectorSuggestion(selector: string): (r: string)
    ensures r == IdTip <==> Contains(selector, "#")
    ensures r == ClassTip <==> !Contains(selector, "#") && (Contains(selector, "pv-") || Contains(selector, "artdeco"))
    ensures r == [] <==> !Contains(selector, "#") && !Contains(selector, "pv-") && !Contains(selector, "artdeco")
  {
    if Contains(selector, "#") then IdTip
    else if Contains(selector, "pv-") || Contains(selector, "artdeco") then ClassTip
    else ""
  }

  // ---- scroll_to_bottom (lines 184-205) ----

  /** The page height read before and after the scroll of one iteration. */
  datatype Heights = Heights(before: int, after: int)

  function Unchanged(heights: nat -> Heights): nat -> bool {
    (i: nat) => heights(i).before == heights(i).after
  }

  /** Returns the number of scrolls made. */
  method ScrollToBottom(heights: nat -> Heights, maxScrolls: int) returns (scrolls: nat)
    ensures scrolls <= Iterations(maxScrolls)
    ensures match FirstIndex(maxScrolls, Unchanged(heights))
      case Some(i) => scrolls == i + 1
      case None => scrolls == Iterations(maxScrolls)
  {
    scrolls := 0;
    var i := 0;
    while i < maxScrolls
      invariant 0 <= i == scrolls <= Iterations(maxScrolls)
      invariant forall k: nat :: k < i ==> !Unchanged(heights)(k)
    {
      var previousHeight := heights(i).before;
      scrolls := scrolls + 1;
      var newHeight := heights(i).after;
      if newHeight == previousHeight {
        FirstIndexIs(maxScrolls, Unchanged(heights), i);
        return;
      }
      i := i + 1;
    }
  }

  // ---- click_see_more_buttons (lines 213-242) ----

  /**
   * What attempt `k` finds: a visible button it clicks, no visible button, or
   * an error (from `is_visible` or from `click`), which the bare `except` turns
   * into a stop.
   */
  datatype Button = Clicks | NotVisible | Errs

  function NotClicked(button: nat -> Button): nat -> bool {
    (k: nat) => !button(k).Clicks?
  }

  /** Returns the number of buttons clicked: the run of clicks from the first attempt on. */
  method ClickSeeMoreButtons(button: nat -> Button, maxAttempts: int) returns (clicked: nat)
    ensures clicked <= Iterations(maxAttempts)
    ensures forall k: nat :: k < clicked ==> button(k) == Clicks
    ensures match FirstIndex(maxAttempts, NotClicked(button))
      case Some(i) => clicked == i
      case None => clicked == Iterations(maxAttempts)
  {
    clicked := 0;
    var attempt := 0;
    while attempt < maxAttempts
      invariant 0 <= attempt == clicked <= Iterations(maxAttempts)
      invariant forall k: nat :: k < attempt ==> button(k) == Clicks
    {
      match button(attempt) {
        case Clicks =>
          clicked := clicked + 1;
        case NotVisible =>
          FirstIndexIs(maxAttempts, NotClicked(button), attempt);
          return;
        case Errs =>
          FirstIndexIs(maxAttempts, NotClicked(button), attempt);
          return;
      }
      attempt := attempt + 1;
    }
    FirstIndexNone(maxAttempts, NotClicked(button));
  }
}
