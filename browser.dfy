// The browser lifecycle of linkedin_scraper/core/browser.py: the two managers
// hold nullable handles to the Playwright driver, the browser, the context and
// the page, fill them in `start`, clear them in `close`, and guard every use
// with a check that raises.
//
// A handle is an identifier. What Playwright answers (a new handle or an
// error) is an input; `closeErrors` maps each handle whose closing raises to its error.
// `closedLog` records, in order, the handles whose `close()`/`stop()` call
// returned normally.

module BrowserLifecycle {
  import opened Wrappers
  import opened Text

  datatype Handle = Handle(id: nat)

  /** What a Playwright call that creates something gives: the new handle, or an error with its message. */
  datatype Step = Opens(handle: Handle) | Throws(message: string)

  datatype Error =
    | RuntimeError(message: string)
    | NetworkError(message: string)
    | FileNotFoundError(message: string)
    | PlaywrightError(message: string)

  datatype Status = Done | Failed(error: Error)

  /** The result of an accessor: the handle, or the `RuntimeError` it raises. */
  datatype Access = Granted(handle: Handle) | Refused(error: Error)

  /** The four nullable handles of a manager, in the order `close` releases them. */
  datatype Handles = Handles(page: Option<Handle>, context: Option<Handle>, browser: Option<Handle>, playwright: Option<Handle>)

  const NoHandles := Handles(None, None, None, None)

  // The messages of the `RuntimeError`s the guards raise.
  const PageMissing := "Browser not started. Use async context manager or call start()."
  const ContextMissing := "Browser context not initialized."
  const BrowserMissing := "Browser not started."
  const NewPageWithoutContext := "Browser context not initialized. Call start() first."
  const SaveWithoutContext := "No browser context to save"
  const CookieWithoutContext := "No browser context"
  const ClearWhileRunning := "Cannot clear profile while browser is running. Close the browser first with close() or exit the context manager."

  /** Slot `i` of the closing order: page, context, browser, playwright. */
  function Slot(hs: Handles, i: nat): Option<Handle>
    requires i < 4
  {
    if i == 0 then hs.page else if i == 1 then hs.context else if i == 2 then hs.browser else hs.playwright
  }

  /** The handle in a slot, as a list of zero or one. */
  function Opt(slot: Option<Handle>): seq<Handle> {
    if slot.Some? then [slot.value] else []
  }

  /** The handles held in slots `k` onwards, in closing order. */
  function HeldFrom(hs: Handles, k: nat): (r: seq<Handle>)
    requires k <= 4
    ensures |r| <= 4 - k
    decreases 4 - k
  {
    if k == 4 then [] else Opt(Slot(hs, k)) + HeldFrom(hs, k + 1)
  }

  /** The handles held, in closing order. */
  function Held(hs: Handles): seq<Handle> {
    HeldFrom(hs, 0)
  }

  /** `log` followed by the handles held in the slots before `k`, in closing order. */
  function LogThrough(log: seq<Handle>, hs: Handles, k: nat): seq<Handle>
    requires k <= 4
  {
    if k == 0 then log else LogThrough(log, hs, k - 1) + Opt(Slot(hs, k - 1))
  }

  /** The handles held in the slots before `k`. */
  function HeldBefore(hs: Handles, k: nat): seq<Handle>
    requires k <= 4
  {
    LogThrough([], hs, k)
  }

  /** Does closing the handle in this slot raise? */
  predicate Blocks(slot: Option<Handle>, closeErrors: map<Handle, string>) {
    slot.Some? && slot.value in closeErrors
  }

  /** The slot at which `close` stops: the first whose closing raises, or 4 when none does. */
  function StopSlot(hs: Handles, closeErrors: map<Handle, string>): (k: nat)
    ensures k <= 4
  {
    if Blocks(hs.page, closeErrors) then 0
    else if Blocks(hs.context, closeErrors) then 1
    else if Blocks(hs.browser, closeErrors) then 2
    else if Blocks(hs.playwright, closeErrors) then 3
    else 4
  }

  /** `StopSlot` is the first slot whose closing raises. */
  lemma StopSlotFirst(hs: Handles, closeErrors: map<Handle, string>)
    ensures forall j :: 0 <= j < StopSlot(hs, closeErrors) ==> !Blocks(Slot(hs, j), closeErrors)
    ensures StopSlot(hs, closeErrors) < 4 ==> Blocks(Slot(hs, StopSlot(hs, closeErrors)), closeErrors)
  {
  }

  /** `hs` with the slots before `k` set to None. */
  function ClearBefore(hs: Handles, k: nat): Handles {
    Handles(if k > 0 then None else hs.page, if k > 1 then None else hs.context,
            if k > 2 then None else hs.browser, if k > 3 then None else hs.playwright)
  }

  /**
   * The handles `close` leaves: each held handle is closed and set to None in
   * the order page, context, browser, playwright; the first error stops the
   * walk (it is logged, not raised) and leaves that handle and the later ones
   * as they were.
   */
  function AfterClose(hs: Handles, closeErrors: map<Handle, string>): Handles {
    ClearBefore(hs, StopSlot(hs, closeErrors))
  }

  /** The handles `close` releases, in the order it closes them. */
  function Released(hs: Handles, closeErrors: map<Handle, string>): seq<Handle> {
    HeldBefore(hs, StopSlot(hs, closeErrors))
  }

  /** The handles a list prefix of which closes without error, up to the first that raises. */
  function ClosedPrefix(held: seq<Handle>, closeErrors: map<Handle, string>): (r: seq<Handle>)
    ensures r <= held
    ensures forall k :: 0 <= k < |r| ==> r[k] !in closeErrors
    ensures |r| < |held| ==> held[|r|] in closeErrors
  {
    if |held| == 0 || held[0] in closeErrors then []
    else [held[0]] + ClosedPrefix(held[1..], closeErrors)
  }

  lemma {:induction false} LogThroughAppends(log: seq<Handle>, hs: Handles, k: nat)
    requires k <= 4
    ensures LogThrough(log, hs, k) == log + HeldBefore(hs, k)
    decreases k
  {
    if k > 0 {
      LogThroughAppends(log, hs, k - 1);
      LogThroughAppends([], hs, k - 1);
    }
  }

  /** The handles held split at any slot into those before it and those from it on. */
  lemma {:induction false} HeldSplit(hs: Handles, k: nat)
    requires k <= 4
    ensures Held(hs) == HeldBefore(hs, k) + HeldFrom(hs, k)
  {
    if k > 0 {
      HeldSplit(hs, k - 1);
      LogThroughAppends([], hs, k - 1);
      assert HeldFrom(hs, k - 1) == Opt(Slot(hs, k - 1)) + HeldFrom(hs, k);
    }
  }

  /** No handle held before a slot that does not raise raises. */
  lemma {:induction false} HeldBeforeCloses(hs: Handles, k: nat, closeErrors: map<Handle, string>)
    requires k <= 4 && forall j :: 0 <= j < k ==> !Blocks(Slot(hs, j), closeErrors)
    ensures forall h :: h in HeldBefore(hs, k) ==> h !in closeErrors
  {
    if k > 0 {
      HeldBeforeCloses(hs, k - 1, closeErrors);
      LogThroughAppends([], hs, k - 1);
    }
  }

  /** Every handle of the list closes: `ClosedPrefix` keeps it all. */
  lemma {:induction false} AllCloseWithoutError(held: seq<Handle>, rest: seq<Handle>, closeErrors: map<Handle, string>)
    requires forall h :: h in held ==> h !in closeErrors
    ensures ClosedPrefix(held + rest, closeErrors) == held + ClosedPrefix(rest, closeErrors)
    decreases |held|
  {
    if |held| > 0 {
      var both := held + rest;
      assert both[0] == held[0] && both[1..] == held[1..] + rest;
      AllCloseWithoutError(held[1..], rest, closeErrors);
      assert held == [held[0]] + held[1..];
    } else {
      assert held + rest == rest;
    }
  }

  /** Slots from `k` on that agree give the same held handles. */
  lemma {:induction false} HeldFromSame(a: Handles, b: Handles, k: nat)
    requires k <= 4 && forall j :: k <= j < 4 ==> Slot(a, j) == Slot(b, j)
    ensures HeldFrom(a, k) == HeldFrom(b, k)
    decreases 4 - k
  {
    if k < 4 {
      HeldFromSame(a, b, k + 1);
    }
  }

  /** Slots before `k` that are all empty hold nothing. */
  lemma {:induction false} HeldBeforeEmpty(hs: Handles, k: nat)
    requires k <= 4 && forall j :: 0 <= j < k ==> Slot(hs, j).None?
    ensures HeldBefore(hs, k) == []
  {
    if k > 0 {
      HeldBeforeEmpty(hs, k - 1);
    }
  }

  /**
   * `close` releases exactly the held handles, in the order page, context,
   * browser, playwright, up to the first that raises; what stays held is the
   * rest; a handle is only ever cleared.
   */
  lemma CloseReleasesInOrder(hs: Handles, closeErrors: map<Handle, string>)
    ensures Released(hs, closeErrors) == ClosedPrefix(Held(hs), closeErrors)
    ensures Held(AfterClose(hs, closeErrors)) == Held(hs)[|Released(hs, closeErrors)|..]
    ensures var after := AfterClose(hs, closeErrors);
      (after.page.None? || after.page == hs.page) &&
      (after.context.None? || after.context == hs.context) &&
      (after.browser.None? || after.browser == hs.browser) &&
      (after.playwright.None? || after.playwright == hs.playwright)
  {
    var k := StopSlot(hs, closeErrors);
    var after := AfterClose(hs, closeErrors);
    StopSlotFirst(hs, closeErrors);
    HeldSplit(hs, k);
    HeldBeforeCloses(hs, k, closeErrors);
    AllCloseWithoutError(HeldBefore(hs, k), HeldFrom(hs, k), closeErrors);
    assert ClosedPrefix(HeldFrom(hs, k), closeErrors) == [] by {
      if k < 4 {
        assert HeldFrom(hs, k) == [Slot(hs, k).value] + HeldFrom(hs, k + 1);
      }
    }
    HeldSplit(after, k);
    HeldBeforeEmpty(after, k);
    HeldFromSame(after, hs, k);
  }

  /** When no handle raises, `close` releases them all and leaves none. */
  lemma CloseWithoutErrors(hs: Handles, closeErrors: map<Handle, string>)
    requires forall h :: h in Held(hs) ==> h !in closeErrors
    ensures AfterClose(hs, closeErrors) == NoHandles
    ensures Released(hs, closeErrors) == Held(hs)
  {
    HeldSplit(hs, 4);
  }

  /**
   * A second `close` releases nothing and changes nothing: it stops at the
   * handle the first one stopped at, or finds none.
   */
  lemma CloseTwice(hs: Handles, closeErrors: map<Handle, string>)
    ensures Released(AfterClose(hs, closeErrors), closeErrors) == []
    ensures AfterClose(AfterClose(hs, closeErrors), closeErrors) == AfterClose(hs, closeErrors)
  {
    var k := StopSlot(hs, closeErrors);
    var after := AfterClose(hs, closeErrors);
    assert StopSlot(after, closeErrors) == k;
    HeldBeforeEmpty(after, k);
  }

  const DefaultViewport := map["width" := 1280, "height" := 720]

  /** `viewport or {"width": 1280, "height": 720}`: an absent or empty dict gives the default. */
  function ViewportOrDefault(viewport: Option<map<string, int>>): (r: map<string, int>)
    ensures viewport.Some? && |viewport.value| > 0 ==> r == viewport.value
    ensures viewport.None? || |viewport.value| == 0 ==> r == DefaultViewport
    ensures |r| > 0
  {
    assert "width" in DefaultViewport;
    if viewport.Some? && |viewport.value| > 0 then viewport.value else DefaultViewport
  }

  const StartFailurePrefix := "Failed to start browser: "

  /** The handles a `start` has assigned when it stops, starting from `hs`: each step that succeeded overwrote its field. */
  function Partial(hs: Handles, pw: Step, br: Step, ctx: Step, pg: Step): Handles {
    if pw.Throws? then hs
    else
      var h1 := hs.(playwright := Some(pw.handle));
      if br.Throws? then h1
      else
        var h2 := h1.(browser := Some(br.handle));
        if ctx.Throws? then h2
        else
          var h3 := h2.(context := Some(ctx.handle));
          if pg.Throws? then h3 else h3.(page := Some(pg.handle))
  }

  /** The message of the error that stopped a `start`. */
  function StartFailure(pw: Step, br: Step, ctx: Step, pg: Step): Option<string> {
    if pw.Throws? then Some(pw.message)
    else if br.Throws? then Some(br.message)
    else if ctx.Throws? then Some(ctx.message)
    else if pg.Throws? then Some(pg.message)
    else None
  }

  /** A start whose every step succeeds ends with all four handles held. */
  lemma PartialOfSuccess(hs: Handles, pw: Step, br: Step, ctx: Step, pg: Step)
    requires pw.Opens? && br.Opens? && ctx.Opens? && pg.Opens?
    ensures Partial(hs, pw, br, ctx, pg) == Handles(Some(pg.handle), Some(ctx.handle), Some(br.handle), Some(pw.handle))
    ensures |Held(Partial(hs, pw, br, ctx, pg))| == 4
  {
  }

  class BrowserManager {
    var headless: bool
    var slowMo: int
    var viewport: map<string, int>
    var userAgent: Option<string>
    var playwright: Option<Handle>
    var browser: Option<Handle>
    var context: Option<Handle>
    var page: Option<Handle>
    var isAuthenticated: bool
    var closedLog: seq<Handle>

    function State(): Handles
      reads this
    {
      Handles(page, context, browser, playwright)
    }

    /** Lines 42-52. */
    constructor(headless: bool, slowMo: int, viewport: Option<map<string, int>>, userAgent: Option<string>)
      ensures State() == NoHandles && !isAuthenticated && closedLog == []
      ensures this.viewport == ViewportOrDefault(viewport)
      ensures this.headless == headless && this.slowMo == slowMo && this.userAgent == userAgent
    {
      this.headless := headless;
      this.slowMo := slowMo;
      this.viewport := ViewportOrDefault(viewport);
      this.userAgent := userAgent;
      playwright := None;
      browser := None;
      context := None;
      page := None;
      isAuthenticated := false;
      closedLog := [];
    }

    /** Lines 94-116: the `try` releases the held handles in order; an error ends it and is only logged. */
    method Close(closeErrors: map<Handle, string>)
      modifies this`page, this`context, this`browser, this`playwright, this`closedLog
      ensures State() == AfterClose(old(State()), closeErrors)
      ensures closedLog == old(closedLog) + Released(old(State()), closeErrors)
    {
      ghost var hs := State();
      LogThroughAppends(closedLog, hs, StopSlot(hs, closeErrors));
      if page.Some? {
        if page.value in closeErrors {
          return;
        }
        closedLog := closedLog + [page.value];
        page := None;
      }
      assert closedLog == LogThrough(old(closedLog), hs, 1);
      if context.Some? {
        if context.value in closeErrors {
          return;
        }
        closedLog := closedLog + [context.value];
        context := None;
      }
      assert closedLog == LogThrough(old(closedLog), hs, 2);
      if browser.Some? {
        if browser.value in closeErrors {
          return;
        }
        closedLog := closedLog + [browser.value];
        browser := None;
      }
      assert closedLog == LogThrough(old(closedLog), hs, 3);
      if playwright.Some? {
        if playwright.value in closeErrors {
          return;
        }
        closedLog := closedLog + [playwright.value];
        playwright := None;
      }
      assert closedLog == LogThrough(old(closedLog), hs, 4);
    }

    /**
     * Lines 63-92: start the driver, launch the browser, open a context and a
     * page; on the first error, `close` and raise `NetworkError`.
     */
    method Start(pw: Step, br: Step, ctx: Step, pg: Step, closeErrors: map<Handle, string>)
      returns (status: Status)
      modifies this`page, this`context, this`browser, this`playwright, this`closedLog
      ensures StartFailure(pw, br, ctx, pg).None? ==>
        status == Done && State() == Partial(old(State()), pw, br, ctx, pg) && closedLog == old(closedLog)
      ensures StartFailure(pw, br, ctx, pg).Some? ==>
        status == Failed(NetworkError(StartFailurePrefix + StartFailure(pw, br, ctx, pg).value)) &&
        State() == AfterClose(Partial(old(State()), pw, br, ctx, pg), closeErrors) &&
        closedLog == old(closedLog) + Released(Partial(old(State()), pw, br, ctx, pg), closeErrors)
      ensures isAuthenticated == old(isAuthenticated) && viewport == old(viewport)
    {
      if pw.Throws? {
        Close(closeErrors);
        return Failed(NetworkError(StartFailurePrefix + pw.message));
      }
      playwright := Some(pw.handle);
      if br.Throws? {
        Close(closeErrors);
        return Failed(NetworkError(StartFailurePrefix + br.message));
      }
      browser := Some(br.handle);
      if ctx.Throws? {
        Close(closeErrors);
        return Failed(NetworkError(StartFailurePrefix + ctx.message));
      }
      context := Some(ctx.handle);
      if pg.Throws? {
        Close(closeErrors);
        return Failed(NetworkError(StartFailurePrefix + pg.message));
      }
      page := Some(pg.handle);
      status := Done;
    }

    /** The `page` property (lines 139-143). */
    function PageAccess(): (r: Access)
      reads this
      ensures r.Refused? <==> page.None?
      ensures r.Granted? ==> r.handle == page.value
      ensures r.Refused? ==> r.error.RuntimeError?
    {
      if page.None? then Refused(RuntimeError(PageMissing))
      else Granted(page.value)
    }

    /** The `context` property (lines 153-155). */
    function ContextAccess(): (r: Access)
      reads this
      ensures r.Refused? <==> context.None?
      ensures r.Granted? ==> r.handle == context.value
      ensures r.Refused? ==> r.error.RuntimeError?
    {
      if context.None? then Refused(RuntimeError(ContextMissing))
      else Granted(context.value)
    }

    /** The `browser` property (lines 165-167). */
    function BrowserAccess(): (r: Access)
      reads this
      ensures r.Refused? <==> browser.None?
      ensures r.Granted? ==> r.handle == browser.value
      ensures r.Refused? ==> r.error.RuntimeError?
    {
      if browser.None? then Refused(RuntimeError(BrowserMissing))
      else Granted(browser.value)
    }

    /** `new_page` (lines 125-129): a page of the current context; the main page is not replaced. */
    function NewPage(created: Step): (r: Access)
      reads this
      ensures context.None? ==> r == Refused(RuntimeError(NewPageWithoutContext))
      ensures context.Some? ==> (r.Granted? <==> created.Opens?)
      ensures r.Granted? ==> r.handle == created.handle
    {
      if context.None? then Refused(RuntimeError(NewPageWithoutContext))
      else match created
        case Opens(h) => Granted(h)
        case Throws(e) => Refused(PlaywrightError(e))
    }

    /** `save_session` (lines 176-177): refused without a context; the file writing is not modelled. */
    function SaveSessionGuard(): (r: Status)
      reads this
      ensures r.Failed? <==> context.None?
      ensures r.Failed? ==> r.error == RuntimeError(SaveWithoutContext)
    {
      if context.None? then Failed(RuntimeError(SaveWithoutContext)) else Done
    }

    /** `set_cookie` (lines 230-235): the cookie record handed to the context, or the refusal. */
    function SetCookie(name: string, value: string, domain: string): (r: Result<Cookie>)
      reads this
      ensures r.Failure? <==> context.None?
      ensures r.Failure? ==> r.error == RuntimeError(CookieWithoutContext)
      ensures r.Success? ==> r.value == Cookie(name, value, domain, "/")
    {
      if context.None? then Failure(RuntimeError(CookieWithoutContext))
      else Success(Cookie(name, value, domain, "/"))
    }

    /** The `is_authenticated` setter (lines 244-247). */
    method SetAuthenticated(value: bool)
      modifies this`isAuthenticated
      ensures isAuthenticated == value
      ensures State() == old(State()) && closedLog == old(closedLog) && viewport == old(viewport)
    {
      isAuthenticated := value;
    }

    /**
     * `load_session` (lines 196-217). The old context is closed before the
     * browser is checked, and `_context` is not cleared, so a missing browser
     * leaves it naming a closed context. A Playwright error propagates.
     */
    method LoadSession(filepath: string, fileExists: bool, closeErrors: map<Handle, string>,
                       newContext: Step, newPage: Step) returns (status: Status)
      modifies this`context, this`page, this`closedLog, this`isAuthenticated
      ensures !fileExists ==>
        status == Failed(FileNotFoundError("Session file not found: " + filepath)) &&
        State() == old(State()) && closedLog == old(closedLog)
      ensures fileExists && Blocks(old(context), closeErrors) ==>
        status == Failed(PlaywrightError(closeErrors[old(context).value])) &&
        State() == old(State()) && closedLog == old(closedLog)
      ensures fileExists && !Blocks(old(context), closeErrors) && old(browser).None? ==>
        status == Failed(RuntimeError("Browser not started")) && context == old(context) && page == old(page) &&
        closedLog == old(closedLog) + Opt(old(context))
      ensures fileExists && !Blocks(old(context), closeErrors) && old(browser).Some? && newContext.Throws? ==>
        status == Failed(PlaywrightError(newContext.message)) && context == old(context) && page == old(page) &&
        closedLog == old(closedLog) + Opt(old(context))
      ensures fileExists && !Blocks(old(context), closeErrors) && old(browser).Some? && newContext.Opens? &&
              Blocks(old(page), closeErrors) ==>
        status == Failed(PlaywrightError(closeErrors[old(page).value])) &&
        context == Some(newContext.handle) && page == old(page) &&
        closedLog == old(closedLog) + Opt(old(context))
      ensures fileExists && !Blocks(old(context), closeErrors) && old(browser).Some? && newContext.Opens? &&
              !Blocks(old(page), closeErrors) && newPage.Throws? ==>
        status == Failed(PlaywrightError(newPage.message)) &&
        context == Some(newContext.handle) && page == old(page) &&
        closedLog == old(closedLog) + Opt(old(context)) + Opt(old(page))
      ensures status == Done <==>
        fileExists && !Blocks(old(context), closeErrors) && old(browser).Some? && newContext.Opens? &&
        !Blocks(old(page), closeErrors) && newPage.Opens?
      ensures status == Done ==>
        isAuthenticated && context == Some(newContext.handle) && page == Some(newPage.handle) &&
        closedLog == old(closedLog) + Opt(old(context)) + Opt(old(page))
      ensures status != Done ==> isAuthenticated == old(isAuthenticated)
    {
      if !fileExists {
        return Failed(FileNotFoundError("Session file not found: " + filepath));
      }
      if context.Some? {
        if context.value in closeErrors {
          return Failed(PlaywrightError(closeErrors[context.value]));
        }
        closedLog := closedLog + [context.value];
      }
      if browser.None? {
        return Failed(RuntimeError("Browser not started"));
      }
      if newContext.Throws? {
        return Failed(PlaywrightError(newContext.message));
      }
      context := Some(newContext.handle);
      if page.Some? {
        if page.value in closeErrors {
          return Failed(PlaywrightError(closeErrors[page.value]));
        }
        closedLog := closedLog + [page.value];
      }
      if newPage.Throws? {
        return Failed(PlaywrightError(newPage.message));
      }
      page := Some(newPage.handle);
      isAuthenticated := true;
      status := Done;
    }
  }

  /** The cookie `set_cookie` adds: name, value, domain and path "/". */
  datatype Cookie = Cookie(name: string, value: string, domain: string, path: string)

  datatype Result<T> = Success(value: T) | Failure(error: Error)

  // ---- PersistentBrowserManager (lines 250-496) ----

  const InUseMarkers := ["already in use", "already running"]
  const PermissionMarkers := ["cannot create", "permission denied"]

  const PersistentStartPrefix := "Failed to start persistent browser: "
  const InUseAdvice := " by another browser instance. Close other instances or use a different profile directory."
  const AccessAdvice := ". Check file permissions."

  /** The head of the message for a profile directory another browser holds. */
  function InUseLead(userDataDir: string): string {
    "Profile directory '" + userDataDir + "' is already in use"
  }

  /** The head of the message for a profile directory that cannot be created or read. */
  function AccessLead(userDataDir: string): string {
    "Cannot create or access profile directory '" + userDataDir + "'"
  }

  /**
   * Lines 352-365: the error a failed persistent start raises, chosen from
   * the lowered message of the original error.
   */
  function ClassifyStartFailure(message: string, userDataDir: string): (r: Error)
    ensures r.RuntimeError? <==> MentionsAny(Lower(message), InUseMarkers) || MentionsAny(Lower(message), PermissionMarkers)
    ensures r.NetworkError? <==> !r.RuntimeError?
    ensures r.NetworkError? ==> r.message == PersistentStartPrefix + message
    ensures MentionsAny(Lower(message), InUseMarkers) ==> StartsWith(r.message, InUseLead(userDataDir))
    ensures !MentionsAny(Lower(message), InUseMarkers) && MentionsAny(Lower(message), PermissionMarkers) ==>
      StartsWith(r.message, AccessLead(userDataDir))
  {
    var lowered := Lower(message);
    if MentionsAny(lowered, InUseMarkers) then
      var m := InUseLead(userDataDir) + InUseAdvice;
      assert m[..|InUseLead(userDataDir)|] == InUseLead(userDataDir);
      RuntimeError(m)
    else if MentionsAny(lowered, PermissionMarkers) then
      var m := AccessLead(userDataDir) + AccessAdvice;
      assert m[..|AccessLead(userDataDir)|] == AccessLead(userDataDir);
      RuntimeError(m)
    else NetworkError(PersistentStartPrefix + message)
  }

  /** A persistent manager holds no browser handle. */
  function PersistentHandles(page: Option<Handle>, context: Option<Handle>, playwright: Option<Handle>): Handles {
    Handles(page, context, None, playwright)
  }

  /** The handles a persistent `start` has assigned when it stops. */
  function PersistentPartial(hs: Handles, mkdirError: Option<string>, pw: Step, ctx: Step,
                             existingPages: seq<Handle>, pg: Step): Handles {
    if mkdirError.Some? || pw.Throws? then hs
    else
      var h1 := hs.(playwright := Some(pw.handle));
      if ctx.Throws? then h1
      else
        var h2 := h1.(context := Some(ctx.handle));
        if |existingPages| > 0 then h2.(page := Some(existingPages[0]))
        else if pg.Throws? then h2
        else h2.(page := Some(pg.handle))
  }

  /** The message of the error that stopped a persistent `start`. */
  function PersistentFailure(mkdirError: Option<string>, pw: Step, ctx: Step,
                             existingPages: seq<Handle>, pg: Step): Option<string> {
    if mkdirError.Some? then mkdirError
    else if pw.Throws? then Some(pw.message)
    else if ctx.Throws? then Some(ctx.message)
    else if |existingPages| == 0 && pg.Throws? then Some(pg.message)
    else None
  }

  class PersistentBrowserManager {
    var userDataDir: string
    var headless: bool
    var slowMo: int
    var viewport: map<string, int>
    var userAgent: Option<string>
    var playwright: Option<Handle>
    var context: Option<Handle>
    var page: Option<Handle>
    var isAuthenticated: bool
    var closedLog: seq<Handle>

    function State(): Handles
      reads this
    {
      PersistentHandles(page, context, playwright)
    }

    /** Lines 289-299; `userDataDir` is the path after `expanduser`. */
    constructor(userDataDir: string, headless: bool, slowMo: int, viewport: Option<map<string, int>>,
                userAgent: Option<string>)
      ensures State() == NoHandles && !isAuthenticated && closedLog == []
      ensures this.viewport == ViewportOrDefault(viewport) && this.userDataDir == userDataDir
    {
      this.userDataDir := userDataDir;
      this.headless := headless;
      this.slowMo := slowMo;
      this.viewport := ViewportOrDefault(viewport);
      this.userAgent := userAgent;
      playwright := None;
      context := None;
      page := None;
      isAuthenticated := false;
      closedLog := [];
    }

    /** Lines 367-388: as for `BrowserManager.close`, without a browser handle. */
    method Close(closeErrors: map<Handle, string>)
      modifies this`page, this`context, this`playwright, this`closedLog
      ensures State() == AfterClose(old(State()), closeErrors)
      ensures closedLog == old(closedLog) + Released(old(State()), closeErrors)
    {
      ghost var hs := State();
      LogThroughAppends(closedLog, hs, StopSlot(hs, closeErrors));
      if page.Some? {
        if page.value in closeErrors {
          return;
        }
        closedLog := closedLog + [page.value];
        page := None;
      }
      assert closedLog == LogThrough(old(closedLog), hs, 1);
      if context.Some? {
        if context.value in closeErrors {
          return;
        }
        closedLog := closedLog + [context.value];
        context := None;
      }
      assert closedLog == LogThrough(old(closedLog), hs, 2);
      assert closedLog == LogThrough(old(closedLog), hs, 3);
      if playwright.Some? {
        if playwright.value in closeErrors {
          return;
        }
        closedLog := closedLog + [playwright.value];
        playwright := None;
      }
      assert closedLog == LogThrough(old(closedLog), hs, 4);
    }

    /**
     * Lines 310-365: make the profile's parent directory, start the driver,
     * launch the persistent context, then reuse its first page or open one.
     * On the first error: `close`, then raise the classified error.
     */
    method Start(mkdirError: Option<string>, pw: Step, ctx: Step, existingPages: seq<Handle>, pg: Step,
                 closeErrors: map<Handle, string>) returns (status: Status)
      modifies this`playwright, this`context, this`page, this`closedLog
      ensures var failure := PersistentFailure(mkdirError, pw, ctx, existingPages, pg);
        var reached := PersistentPartial(old(State()), mkdirError, pw, ctx, existingPages, pg);
        (failure.None? ==> status == Done && State() == reached && closedLog == old(closedLog)) &&
        (failure.Some? ==>
          status == Failed(ClassifyStartFailure(failure.value, userDataDir)) &&
          State() == AfterClose(reached, closeErrors) &&
          closedLog == old(closedLog) + Released(reached, closeErrors))
    {
      var failure: Option<string> := None;
      if mkdirError.Some? {
        failure := mkdirError;
      } else if pw.Throws? {
        failure := Some(pw.message);
      } else {
        playwright := Some(pw.handle);
        if ctx.Throws? {
          failure := Some(ctx.message);
        } else {
          context := Some(ctx.handle);
          if |existingPages| > 0 {
            page := Some(existingPages[0]);
          } else if pg.Throws? {
            failure := Some(pg.message);
          } else {
            page := Some(pg.handle);
          }
        }
      }
      if failure.Some? {
        // the `except` handler: close what was opened, then raise the classified error
        assert State() == PersistentPartial(old(State()), mkdirError, pw, ctx, existingPages, pg);
        assert failure == PersistentFailure(mkdirError, pw, ctx, existingPages, pg);
        Close(closeErrors);
        return Failed(ClassifyStartFailure(failure.value, userDataDir));
      }
      status := Done;
    }

    /** The `page` property (lines 411-415). */
    function PageAccess(): (r: Access)
      reads this
      ensures r.Refused? <==> page.None?
      ensures r.Granted? ==> r.handle == page.value
      ensures r.Refused? ==> r.error.RuntimeError?
    {
      if page.None? then Refused(RuntimeError(PageMissing))
      else Granted(page.value)
    }

    /** The `context` property (lines 425-427). */
    function ContextAccess(): (r: Access)
      reads this
      ensures r.Refused? <==> context.None?
      ensures r.Granted? ==> r.handle == context.value
      ensures r.Refused? ==> r.error.RuntimeError?
    {
      if context.None? then Refused(RuntimeError(ContextMissing))
      else Granted(context.value)
    }

    /** The `browser` property (lines 440-442): always None, whatever the state. */
    function BrowserAccess(): (r: Option<Handle>)
      reads this
      ensures r.None?
    {
      None
    }

    /** `new_page` (lines 397-401). */
    function NewPage(created: Step): (r: Access)
      reads this
      ensures context.None? ==> r == Refused(RuntimeError(NewPageWithoutContext))
      ensures context.Some? ==> (r.Granted? <==> created.Opens?)
      ensures r.Granted? ==> r.handle == created.handle
    {
      if context.None? then Refused(RuntimeError(NewPageWithoutContext))
      else match created
        case Opens(h) => Granted(h)
        case Throws(e) => Refused(PlaywrightError(e))
    }

    /** `set_cookie` (lines 455-460). */
    function SetCookie(name: string, value: string, domain: string): (r: Result<Cookie>)
      reads this
      ensures r.Failure? <==> context.None?
      ensures r.Success? ==> r.value == Cookie(name, value, domain, "/")
      ensures r.Failure? ==> r.error == RuntimeError(CookieWithoutContext)
    {
      if context.None? then Failure(RuntimeError(CookieWithoutContext))
      else Success(Cookie(name, value, domain, "/"))
    }

    /** The `is_authenticated` setter (lines 469-472). */
    method SetAuthenticated(value: bool)
      modifies this`isAuthenticated
      ensures isAuthenticated == value
      ensures State() == old(State()) && closedLog == old(closedLog) && userDataDir == old(userDataDir)
    {
      isAuthenticated := value;
    }

    /**
     * `clear_profile` (lines 484-496): refused while a context is held, even
     * one that is closed; otherwise the directory is removed when it exists.
     */
    function ClearProfile(dirExists: bool): (r: ClearOutcome)
      reads this
      ensures r.ClearRefused? <==> context.Some?
      ensures r.ClearRefused? ==> r.error.RuntimeError?
      ensures r == Removed <==> context.None? && dirExists
    {
      if context.Some? then
        ClearRefused(RuntimeError(ClearWhileRunning))
      else if dirExists then Removed
      else NothingToRemove
    }
  }

  /** What `clear_profile` does: refuse, remove the directory, or only warn that there is none. */
  datatype ClearOutcome = ClearRefused(error: Error) | Removed | NothingToRemove

  /** After a `close` that raised nothing, the profile can be cleared. */
  lemma ClearAfterCleanClose(hs: Handles, closeErrors: map<Handle, string>)
    requires forall h :: h in Held(hs) ==> h !in closeErrors
    ensures AfterClose(hs, closeErrors).context.None?
  {
    CloseWithoutErrors(hs, closeErrors);
  }
}
