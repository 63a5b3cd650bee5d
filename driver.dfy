/**
 * The application driver, `handleApplicationProcess()`: a polling loop of at
 * most twenty ticks that, on each tick, fails on an error marker, else clicks
 * the first of Continue, Review and Submit that is on the page, and gives up
 * when the page has no buttons at all.
 */
module Driver {

  /** `maxAttempts`. */
  const MaxAttempts := 20

  /**
   * What one tick sees on the page: an inline error
   * (`.artdeco-inline-feedback--error`), the three stepper buttons (by their
   * aria-labels "Continue to next step", "Review your application" and
   * "Submit application"), the number of buttons on the page, and whether a
   * "Dismiss" button is there one second after a Submit click.
   */
  datatype Observation = Observation(
    hasError: bool,
    hasContinue: bool,
    hasReview: bool,
    hasSubmit: bool,
    buttonCount: nat,
    hasDismiss: bool)

  /** The page at each of the twenty ticks the driver may take. */
  type Flow = s: seq<Observation> | |s| == MaxAttempts
    witness seq(MaxAttempts, _ => Observation(false, false, false, false, 1, false))

  datatype Button = Continue | Review | Submit | Dismiss

  /** What one tick did; the source logs one line for each. */
  datatype TickResult =
    | Errored                    // error marker found: stop, nothing clicked
    | ContinueClicked            // Continue clicked: go on to the next tick
    | ReviewClicked              // Review clicked: go on to the next tick
    | Submitted(dismissed: bool) // Submit clicked, then Dismiss if it appeared: success
    | NoButtons                  // nothing matched and the page has no button: stop
    | NothingMatched             // nothing matched but buttons exist: tick consumed

  /** The decision one tick takes on the page it sees. */
  function Tick(o: Observation): TickResult
  {
    if o.hasError then Errored
    else if o.hasContinue then ContinueClicked
    else if o.hasReview then ReviewClicked
    else if o.hasSubmit then Submitted(o.hasDismiss)
    else if o.buttonCount == 0 then NoButtons
    else NothingMatched
  }

  /** The ticks after which `handleApplicationProcess` returns. */
  predicate Ends(r: TickResult)
  {
    r.Errored? || r.Submitted? || r.NoButtons?
  }

  /** The buttons a tick clicked, in order. */
  function Clicks(r: TickResult): seq<Button>
  {
    match r
    case ContinueClicked => [Continue]
    case ReviewClicked => [Review]
    case Submitted(d) => [Submit] + (if d then [Dismiss] else [])
    case _ => []
  }

  /** Every button clicked over a run. */
  function AllClicks(trace: seq<TickResult>): seq<Button>
  {
    if trace == [] then [] else AllClicks(trace[..|trace| - 1]) + Clicks(trace[|trace| - 1])
  }

  /** A run of the driver: its boolean result and the ticks it took. */
  datatype Run = Run(applied: bool, trace: seq<TickResult>)

  /** The driver's run over the pages of the ticks it has left: one tick per page, at most. */
  function RunFrom(pages: seq<Observation>): Run
    decreases |pages|
  {
    if pages == [] then Run(false, [])
    else
      var r := Tick(pages[0]);
      if Ends(r) then Run(r.Submitted?, [r])
      else
        var rest := RunFrom(pages[1..]);
        Run(rest.applied, [r] + rest.trace)
  }

  /** The driver's whole run on a page flow. */
  function Drive(ticks: Flow): Run
  {
    RunFrom(ticks)
  }

  /**
   * `handleApplicationProcess()`, on the page flow `ticks`. It returns the
   * source's boolean and the ticks it took.
   */
  method HandleApplicationProcess(ticks: Flow) returns (applied: bool, trace: seq<TickResult>)
    ensures Run(applied, trace) == Drive(ticks)
  {
    var maxAttempts := MaxAttempts;
    var attempts := 0;
    trace := [];
    assert ticks[attempts..] == ticks;
    while attempts < maxAttempts
      invariant 0 <= attempts <= maxAttempts == MaxAttempts
      invariant Drive(ticks).trace == trace + RunFrom(ticks[attempts..]).trace
      invariant Drive(ticks).applied == RunFrom(ticks[attempts..]).applied
    {
      var page := ticks[attempts];
      DriveStep(ticks, attempts, trace);
      attempts := attempts + 1;

      if page.hasError {
        trace := trace + [Errored];
        return false, trace;
      }
      if page.hasContinue {
        trace := trace + [ContinueClicked];
        continue;
      }
      if page.hasReview {
        trace := trace + [ReviewClicked];
        continue;
      }
      if page.hasSubmit {
        trace := trace + [Submitted(page.hasDismiss)];
        return true, trace;
      }
      if page.buttonCount == 0 {
        trace := trace + [NoButtons];
        return false, trace;
      }
      trace := trace + [NothingMatched];
    }
    applied := false;
  }

  /** One tick of the loop, as `RunFrom` takes it: the run either ends on it or goes on. */
  lemma DriveStep(ticks: Flow, a: nat, done: seq<TickResult>)
    requires a < MaxAttempts
    requires Drive(ticks).trace == done + RunFrom(ticks[a..]).trace
    requires Drive(ticks).applied == RunFrom(ticks[a..]).applied
    ensures var r := Tick(ticks[a]);
      if Ends(r) then Drive(ticks) == Run(r.Submitted?, done + [r])
      else (Drive(ticks).trace == (done + [r]) + RunFrom(ticks[a + 1..]).trace
            && Drive(ticks).applied == RunFrom(ticks[a + 1..]).applied)
  {
    var pages := ticks[a..];
    assert pages[0] == ticks[a] && pages[1..] == ticks[a + 1..];
    var r := Tick(ticks[a]);
    if !Ends(r) {
      var rest := RunFrom(ticks[a + 1..]);
      assert done + ([r] + rest.trace) == (done + [r]) + rest.trace;
    }
  }

  // ----- one tick -----

  /**
   * Priority within a tick: an error marker overrides every button; Continue
   * is clicked before Review, Review before Submit; at most one of the three
   * is clicked, and Dismiss only right after Submit.
   */
  lemma TickPriority(o: Observation)
    ensures o.hasError ==> Tick(o) == Errored && Clicks(Tick(o)) == []
    ensures !o.hasError && o.hasContinue ==> Clicks(Tick(o)) == [Continue]
    ensures !o.hasError && !o.hasContinue && o.hasReview ==> Clicks(Tick(o)) == [Review]
    ensures !o.hasError && !o.hasContinue && !o.hasReview && o.hasSubmit ==>
      Clicks(Tick(o)) == if o.hasDismiss then [Submit, Dismiss] else [Submit]
    ensures !o.hasError && !o.hasContinue && !o.hasReview && !o.hasSubmit ==> Clicks(Tick(o)) == []
  {
  }

  // ----- whole runs -----

  /** Over the pages left, the run takes no more ticks than there are pages, at least one, and each as `Tick` decides. */
  lemma {:induction false} RunFromTicks(pages: seq<Observation>)
    ensures var d := RunFrom(pages);
      && |d.trace| <= |pages|
      && (pages != [] ==> 1 <= |d.trace|)
      && forall i :: 0 <= i < |d.trace| ==> d.trace[i] == Tick(pages[i])
    decreases |pages|
  {
    if pages != [] {
      var r := Tick(pages[0]);
      if !Ends(r) {
        RunFromTicks(pages[1..]);
        var rest := RunFrom(pages[1..]);
        forall i | 1 <= i < 1 + |rest.trace|
          ensures ([r] + rest.trace)[i] == Tick(pages[i])
        {
          assert ([r] + rest.trace)[i] == rest.trace[i - 1];
          assert pages[1..][i - 1] == pages[i];
        }
      }
    }
  }

  /**
   * Over the pages left, only the last tick may end the run; it does unless
   * the pages ran out; and the result is whether it clicked Submit.
   */
  lemma {:induction false} RunFromStops(pages: seq<Observation>)
    requires pages != []
    ensures var d := RunFrom(pages);
      && |d.trace| >= 1
      && (forall i :: 0 <= i < |d.trace| - 1 ==> !Ends(d.trace[i]))
      && (|d.trace| < |pages| ==> Ends(d.trace[|d.trace| - 1]))
      && (d.applied <==> d.trace[|d.trace| - 1].Submitted?)
    decreases |pages|
  {
    var r := Tick(pages[0]);
    if !Ends(r) && |pages| > 1 {
      var d, rest := RunFrom(pages), RunFrom(pages[1..]);
      assert d == Run(rest.applied, [r] + rest.trace);
      RunFromStops(pages[1..]);
      forall i | 0 <= i < |d.trace| - 1
        ensures !Ends(d.trace[i])
      {
        if i > 0 {
          assert d.trace[i] == rest.trace[i - 1];
        }
      }
      assert d.trace[|d.trace| - 1] == rest.trace[|rest.trace| - 1];
    }
  }

  /**
   * The run, tick by tick: it takes between one and twenty ticks; tick `i`
   * does what `Tick` decides on the page at tick `i`; every tick but the last
   * goes on; a run shorter than twenty ticks stopped on an ending tick; and
   * the result is true exactly when the last tick clicked Submit.
   */
  lemma DriveTrace(ticks: Flow)
    ensures var d := Drive(ticks);
      && 1 <= |d.trace| <= MaxAttempts
      && (forall i :: 0 <= i < |d.trace| ==> d.trace[i] == Tick(ticks[i]))
      && (forall i :: 0 <= i < |d.trace| - 1 ==> !Ends(d.trace[i]))
      && (|d.trace| < MaxAttempts ==> Ends(d.trace[|d.trace| - 1]))
      && (d.applied <==> d.trace[|d.trace| - 1].Submitted?)
  {
    RunFromTicks(ticks);
    RunFromStops(ticks);
  }

  /** The result is true exactly when some tick reaches Submit before any tick ended the run. */
  lemma AppliedIffSubmitReached(ticks: Flow)
    ensures Drive(ticks).applied <==>
      exists k :: 0 <= k < MaxAttempts && Tick(ticks[k]).Submitted?
        && forall j :: 0 <= j < k ==> !Ends(Tick(ticks[j]))
  {
    DriveTrace(ticks);
    var d := Drive(ticks);
    var n := |d.trace|;
    if d.applied {
      assert Tick(ticks[n - 1]).Submitted?;
      assert forall j :: 0 <= j < n - 1 ==> !Ends(Tick(ticks[j])) by {
        forall j | 0 <= j < n - 1 ensures !Ends(Tick(ticks[j])) {
          assert d.trace[j] == Tick(ticks[j]);
        }
      }
    } else {
      forall k | 0 <= k < MaxAttempts && Tick(ticks[k]).Submitted?
        ensures exists j :: 0 <= j < k && Ends(Tick(ticks[j]))
      {
        if n <= k {
          assert Ends(Tick(ticks[n - 1])) by { assert d.trace[n - 1] == Tick(ticks[n - 1]); }
        }
      }
    }
  }

  /** A flow on which no tick ever ends the run exhausts all twenty ticks and fails. */
  lemma BudgetExhausted(ticks: Flow)
    requires forall k :: 0 <= k < MaxAttempts ==> !Ends(Tick(ticks[k]))
    ensures !Drive(ticks).applied
    ensures |Drive(ticks).trace| == MaxAttempts
  {
    DriveTrace(ticks);
    var d := Drive(ticks);
    assert d.trace[|d.trace| - 1] == Tick(ticks[|d.trace| - 1]);
  }

  /**
   * An error marker on tick `k`, reached with every earlier tick going on,
   * fails the run on that tick with nothing clicked on it, whatever buttons
   * the page also shows.
   */
  lemma ErrorEndsRun(ticks: Flow, k: nat)
    requires k < MaxAttempts && ticks[k].hasError
    requires forall j :: 0 <= j < k ==> !Ends(Tick(ticks[j]))
    ensures !Drive(ticks).applied
    ensures |Drive(ticks).trace| == k + 1 && Drive(ticks).trace[k] == Errored
  {
    EndingTickEndsRun(ticks, k);
  }

  /** A tick with no error, none of the three buttons and no button at all fails the run there. */
  lemma NoButtonsEndsRun(ticks: Flow, k: nat)
    requires k < MaxAttempts
    requires var o := ticks[k]; !o.hasError && !o.hasContinue && !o.hasReview && !o.hasSubmit && o.buttonCount == 0
    requires forall j :: 0 <= j < k ==> !Ends(Tick(ticks[j]))
    ensures !Drive(ticks).applied
    ensures |Drive(ticks).trace| == k + 1 && Drive(ticks).trace[k] == NoButtons
  {
    EndingTickEndsRun(ticks, k);
  }

  /** The first ending tick is the last tick of the run, and decides its result. */
  lemma EndingTickEndsRun(ticks: Flow, k: nat)
    requires k < MaxAttempts && Ends(Tick(ticks[k]))
    requires forall j :: 0 <= j < k ==> !Ends(Tick(ticks[j]))
    ensures |Drive(ticks).trace| == k + 1 && Drive(ticks).trace[k] == Tick(ticks[k])
    ensures Drive(ticks).applied == Tick(ticks[k]).Submitted?
  {
    DriveTrace(ticks);
  }

  /** A tick where nothing matched but buttons exist is consumed: the run goes on to the next tick. */
  lemma ButtonsPresentTickConsumed(o: Observation)
    requires !o.hasError && !o.hasContinue && !o.hasReview && !o.hasSubmit && o.buttonCount > 0
    ensures Tick(o) == NothingMatched && !Ends(Tick(o)) && Clicks(Tick(o)) == []
  {
  }

  /** A trace of ticks that all go on clicks neither Submit nor Dismiss. */
  lemma {:induction false} NoSubmitBeforeEnd(trace: seq<TickResult>)
    requires forall i :: 0 <= i < |trace| ==> !Ends(trace[i])
    ensures Submit !in AllClicks(trace) && Dismiss !in AllClicks(trace)
  {
    if trace != [] {
      var init := trace[..|trace| - 1];
      forall i | 0 <= i < |init| ensures !Ends(init[i]) {
        assert init[i] == trace[i];
      }
      NoSubmitBeforeEnd(init);
      assert !Ends(trace[|trace| - 1]);
    }
  }

  /**
   * On any run whose ticks all go on but the last, and whose result is
   * whether that last tick clicked Submit, Submit is clicked exactly when the
   * run succeeds, and neither Submit nor Dismiss before the last tick.
   */
  lemma ClicksOfRun(d: Run)
    requires |d.trace| >= 1
    requires forall i :: 0 <= i < |d.trace| - 1 ==> !Ends(d.trace[i])
    requires d.applied <==> d.trace[|d.trace| - 1].Submitted?
    ensures d.applied <==> Submit in AllClicks(d.trace)
    ensures Submit !in AllClicks(d.trace[..|d.trace| - 1])
    ensures Dismiss !in AllClicks(d.trace[..|d.trace| - 1])
  {
    var trace := d.trace;
    var n := |trace|;
    var init, last := trace[..n - 1], trace[n - 1];
    assert AllClicks(trace) == AllClicks(init) + Clicks(last);
    assert Submit !in AllClicks(init) && Dismiss !in AllClicks(init) by {
      forall i | 0 <= i < |init| ensures !Ends(init[i]) {
        assert init[i] == trace[i];
      }
      NoSubmitBeforeEnd(init);
    }
    SubmitInClicks(last);
    assert (Submit in AllClicks(trace)) <==> Submit in Clicks(last);
  }

  /** A tick's clicks include Submit exactly when it is a Submit tick. */
  lemma SubmitInClicks(r: TickResult)
    ensures Submit in Clicks(r) <==> r.Submitted?
  {
    if r.Submitted? {
      assert Clicks(r)[0] == Submit;
    }
  }

  /**
   * Submit is clicked in a run exactly when the run succeeds, and only on its
   * last tick; every earlier click is Continue or Review.
   */
  lemma SubmitClickedIffApplied(ticks: Flow)
    ensures var d := Drive(ticks);
      && (d.applied <==> Submit in AllClicks(d.trace))
      && Submit !in AllClicks(d.trace[..|d.trace| - 1])
      && Dismiss !in AllClicks(d.trace[..|d.trace| - 1])
  {
    RunFromStops(ticks);
    ClicksOfRun(Drive(ticks));
  }

  /** Two pages alike in everything but the Dismiss button. */
  predicate SameButDismiss(a: Observation, b: Observation)
  {
    a.hasError == b.hasError && a.hasContinue == b.hasContinue && a.hasReview == b.hasReview
    && a.hasSubmit == b.hasSubmit && a.buttonCount == b.buttonCount
  }

  lemma {:induction false} DismissNeverDecidesFrom(p1: seq<Observation>, p2: seq<Observation>)
    requires |p1| == |p2|
    requires forall k :: 0 <= k < |p1| ==> SameButDismiss(p1[k], p2[k])
    ensures RunFrom(p1).applied == RunFrom(p2).applied
    ensures |RunFrom(p1).trace| == |RunFrom(p2).trace|
    decreases |p1|
  {
    if p1 != [] {
      assert SameButDismiss(p1[0], p2[0]);
      forall k | 0 <= k < |p1| - 1 ensures SameButDismiss(p1[1..][k], p2[1..][k]) {
        assert p1[1..][k] == p1[k + 1] && p2[1..][k] == p2[k + 1];
      }
      DismissNeverDecidesFrom(p1[1..], p2[1..]);
    }
  }

  /**
   * Whether a Dismiss button shows up after Submit changes neither the
   * result nor the number of ticks taken: it is clicked if present, and
   * that is all.
   */
  lemma DismissNeverDecides(t1: Flow, t2: Flow)
    requires forall k :: 0 <= k < MaxAttempts ==> SameButDismiss(t1[k], t2[k])
    ensures Drive(t1).applied == Drive(t2).applied
    ensures |Drive(t1).trace| == |Drive(t2).trace|
  {
    DismissNeverDecidesFrom(t1, t2);
  }
}
