/**
 * The content script's state, `window.linkedInAutoApplyAgent`, with the
 * START/STOP message handler and the run loop `startAutoApply()`.
 *
 * The page is abstracted into what the loop observes: each scan of the job
 * list is a `Round` of `Card`s, and a STOP message, which the source can only
 * receive while the loop is suspended in a wait, is an event attached to the
 * suspension point where it arrives.
 */
module ContentScript {
  import opened Wrappers
  import Config
  import Search
  import Scanner
  import Driver

  /** One `.job-card-container` as the run loop meets it. */
  datatype Card = Card(
    stopRequested: bool,     // a STOP message arrives while the loop waits before this card
    view: Scanner.CardView,  // what `isEasyApplyJob` inspects
    hasApplyButton: bool,    // once opened: a `button[aria-label*="Easy Apply to"]` is on the page
    flow: Driver.Flow)       // the application dialog, tick by tick

  /** What became of one card. */
  datatype CardOutcome = NotEasyApply | NoApplyButton | Applied | NotApplied

  /** The outcome of handing a card to the loop body. */
  function Outcome(c: Card): CardOutcome
  {
    if !Scanner.IsEasyApplyJob(c.view) then NotEasyApply
    else if !c.hasApplyButton then NoApplyButton
    else if Driver.Drive(c.flow).applied then Applied
    else NotApplied
  }

  /** The outcomes of a run of cards, in document order. */
  function Outcomes(cards: seq<Card>): (os: seq<CardOutcome>)
    ensures |os| == |cards|
  {
    if cards == [] then [] else Outcomes(cards[..|cards| - 1]) + [Outcome(cards[|cards| - 1])]
  }

  /** The number of successful applications among some outcomes. */
  function AppliedCount(os: seq<CardOutcome>): (n: nat)
    ensures n <= |os|
  {
    if os == [] then 0
    else AppliedCount(os[..|os| - 1]) + (if os[|os| - 1] == Applied then 1 else 0)
  }

  /** The index of the first card before which a STOP arrives, or the number of cards. */
  function FirstStop(cards: seq<Card>): (k: nat)
    ensures k <= |cards|
    ensures k < |cards| ==> cards[k].stopRequested
  {
    if cards == [] then 0
    else if cards[0].stopRequested then 0
    else 1 + FirstStop(cards[1..])
  }

  /** `UPDATE_COUNT` messages sent since the counter stood at `start`: one per increment, in order. */
  predicate CountsFrom(sent: seq<nat>, start: nat)
  {
    forall i :: 0 <= i < |sent| ==> sent[i] == start + i + 1
  }

  /**
   * One pass of the outer loop: the cards the scan found, the card count
   * after scrolling to the bottom, and whether a STOP arrives during the
   * waits that end the pass.
   */
  datatype Round = Round(cards: seq<Card>, cardsAfterScroll: nat, stopAfter: bool)

  /** Why the run ended. */
  datatype RunExit =
    | NeedsNavigation   // not on the search page: return before the loop
    | ResultsExhausted  // scrolling loaded no new cards: return
    | Stopped           // `isRunning` was false at the loop test
    | ObservationEnded  // still running when the observed rounds ran out

  /** One pass of the outer loop begun while running: its outcomes, whether it ends the run, and `isRunning` after it. */
  datatype PassResult = PassResult(outcomes: seq<CardOutcome>, exhausted: bool, running: bool)

  /**
   * The body of the outer loop on one round: an empty scan only waits; a
   * non-empty one handles its cards up to the first STOP, scrolls, and ends
   * the run when the card count did not grow.
   */
  function Pass(rd: Round): PassResult
  {
    if rd.cards == [] then PassResult([], false, !rd.stopAfter)
    else
      var k := FirstStop(rd.cards);
      PassResult(Outcomes(rd.cards[..k]), rd.cardsAfterScroll == |rd.cards|, k == |rd.cards| && !rd.stopAfter)
  }

  datatype RunResult = RunResult(outcomes: seq<CardOutcome>, exit: RunExit, running: bool)

  /** Outcomes handled earlier, put ahead of a run's. */
  function Prepend(os: seq<CardOutcome>, r: RunResult): RunResult
  {
    RunResult(os + r.outcomes, r.exit, r.running)
  }

  /** The outer loop over the observed rounds, given the value of `isRunning` at its test. */
  function RunRounds(rounds: seq<Round>, running: bool): RunResult
    decreases |rounds|
  {
    if !running then RunResult([], Stopped, false)
    else if rounds == [] then RunResult([], ObservationEnded, true)
    else
      var p := Pass(rounds[0]);
      if p.exhausted then RunResult(p.outcomes, ResultsExhausted, p.running)
      else
        Prepend(p.outcomes, RunRounds(rounds[1..], p.running))
  }

  /** A message from the popup; `Other` is any other action. */
  datatype Message = StartApplying(settings: Option<Search.RequestSettings>) | StopApplying | Other

  /** `window.linkedInAutoApplyAgent`. */
  class AutoApplyAgent {
    var isRunning: bool
    var jobsApplied: nat
    var settings: Search.Settings

    ghost predicate Valid()
      reads this
    {
      Search.Complete(settings)
    }

    /** The initial record: idle, nothing applied, the settings taken from `getConfig()`. */
    constructor ()
      ensures Valid() && !isRunning && jobsApplied == 0
      ensures settings == Search.Settings("Frontend Engineer", "none", "Remote", true)
    {
      var config := Config.GetConfig();
      Config.CustomOverridesDefaults();
      Config.AbsentKeysKeepDefaults();
      isRunning := false;
      jobsApplied := 0;
      settings := Search.Settings(
        Config.Get(config, "jobTitle").value.s,
        Config.Get(config, "jobType").value.s,
        Config.Get(config, "location").value.s,
        true);
    }

    /**
     * The message listener. START installs the request's settings (each
     * missing or empty field defaulted, easy-apply forced on) when the
     * request carries any, and sets `isRunning`; it then launches the run,
     * modelled by `StartAutoApply`. STOP only clears `isRunning`. Neither
     * touches the counter.
     */
    method HandleMessage(msg: Message)
      requires Valid()
      modifies this
      ensures Valid()
      ensures jobsApplied == old(jobsApplied)
      ensures msg.StartApplying? ==> isRunning
      ensures msg.StartApplying? && msg.settings.Some? ==> settings == Search.FromRequest(msg.settings.value)
      ensures msg.StopApplying? ==> !isRunning
      ensures msg.Other? ==> isRunning == old(isRunning)
      ensures !(msg.StartApplying? && msg.settings.Some?) ==> settings == old(settings)
    {
      match msg
      case StartApplying(req) =>
        if req.Some? {
          settings := Search.FromRequest(req.value);
        }
        isRunning := true;
      case StopApplying =>
        isRunning := false;
      case Other =>
    }

    /**
     * The inner `for` loop over one scan's cards. A STOP arriving before a
     * card ends the batch there; every card before it is handled in order.
     * Each successful application adds one to `jobsApplied` and sends the new
     * count.
     */
    method ProcessBatch(cards: seq<Card>) returns (outcomes: seq<CardOutcome>, sent: seq<nat>)
      requires Valid() && isRunning
      modifies this
      ensures Valid() && settings == old(settings)
      ensures outcomes == Outcomes(cards[..FirstStop(cards)])
      ensures isRunning <==> FirstStop(cards) == |cards|
      ensures jobsApplied == old(jobsApplied) + AppliedCount(outcomes)
      ensures |sent| == AppliedCount(outcomes) && CountsFrom(sent, old(jobsApplied))
    {
      outcomes, sent := [], [];
      for i := 0 to |cards|
        invariant Valid() && settings == old(settings) && isRunning
        invariant i <= FirstStop(cards)
        invariant outcomes == Outcomes(cards[..i])
        invariant jobsApplied == old(jobsApplied) + AppliedCount(outcomes)
        invariant |sent| == AppliedCount(outcomes) && CountsFrom(sent, old(jobsApplied))
      {
        var card := cards[i];
        if card.stopRequested {
          HandleMessage(StopApplying);
        }
        if !isRunning {
          FirstStopBound(cards, i);
          assert i == FirstStop(cards);
          break;
        }
        outcomes, sent := VisitCard(cards, i, outcomes, sent, old(jobsApplied));
      }
    }

    /**
     * The inner loop's body for card `i`, reached while running with no STOP
     * ahead of it: the card is handled and its outcome, count and update are
     * added to what the earlier cards produced.
     */
    method VisitCard(cards: seq<Card>, i: nat, outcomes: seq<CardOutcome>, sent: seq<nat>, ghost start: nat)
      returns (outcomes': seq<CardOutcome>, sent': seq<nat>)
      requires i < |cards| && i <= FirstStop(cards) && !cards[i].stopRequested
      requires outcomes == Outcomes(cards[..i])
      requires jobsApplied == start + AppliedCount(outcomes)
      requires |sent| == AppliedCount(outcomes) && CountsFrom(sent, start)
      modifies this`jobsApplied
      ensures i + 1 <= FirstStop(cards)
      ensures outcomes' == Outcomes(cards[..i + 1])
      ensures jobsApplied == start + AppliedCount(outcomes')
      ensures |sent'| == AppliedCount(outcomes') && CountsFrom(sent', start)
    {
      var outcome, cardSent := HandleCard(cards[i]);
      BatchStep(cards, i, outcomes, sent, start, outcome, cardSent);
      outcomes', sent' := outcomes + [outcome], sent + cardSent;
    }

    /**
     * The body of the inner loop for a card reached while running: skip a
     * card that is not Easy Apply; otherwise open it, and if its apply button
     * is there, run the driver and count and report a success.
     */
    method HandleCard(card: Card) returns (outcome: CardOutcome, sent: seq<nat>)
      modifies this`jobsApplied
      ensures outcome == Outcome(card)
      ensures jobsApplied == old(jobsApplied) + if outcome == Applied then 1 else 0
      ensures sent == if outcome == Applied then [jobsApplied] else []
    {
      sent := [];
      if !Scanner.IsEasyApplyJob(card.view) {
        return NotEasyApply, sent;
      }
      if card.hasApplyButton {
        var applied, _ := Driver.HandleApplicationProcess(card.flow);
        if applied {
          jobsApplied := jobsApplied + 1;
          sent := [jobsApplied];
          outcome := Applied;
        } else {
          outcome := NotApplied;
        }
      } else {
        outcome := NoApplyButton;
      }
    }

    /**
     * One pass of the `while (isRunning)` loop: scan; on an empty scan wait
     * and go round again; otherwise handle the batch, scroll to the bottom,
     * and report whether the card count stayed the same.
     */
    method LoopPass(round: Round) returns (exhausted: bool, batch: seq<CardOutcome>, batchSent: seq<nat>)
      requires Valid() && isRunning
      modifies this
      ensures Valid() && settings == old(settings)
      ensures Pass(round) == PassResult(batch, exhausted, isRunning)
      ensures jobsApplied == old(jobsApplied) + AppliedCount(batch)
      ensures |batchSent| == AppliedCount(batch) && CountsFrom(batchSent, old(jobsApplied))
    {
      var jobCards := round.cards;
      if |jobCards| == 0 {
        if round.stopAfter {
          HandleMessage(StopApplying);
        }
        return false, [], [];
      }
      batch, batchSent := ProcessBatch(jobCards);
      if round.stopAfter {
        HandleMessage(StopApplying);
      }
      var oldJobCount := |jobCards|;
      exhausted := round.cardsAfterScroll == oldJobCount;
    }

    /**
     * `startAutoApply()`, on the page at `href` (whose serialized query is
     * `currentQuery`) and the rounds the loop observes. Off the search page it
     * returns at once; otherwise it runs the outer `while (isRunning)` loop.
     */
    method StartAutoApply(href: string, currentQuery: string, rounds: seq<Round>)
      returns (exit: RunExit, outcomes: seq<CardOutcome>, sent: seq<nat>)
      requires Valid()
      modifies this
      ensures Valid() && settings == old(settings)
      ensures !Search.IsOnJobsPage(href) ==>
        exit == NeedsNavigation && outcomes == [] && isRunning == old(isRunning)
      ensures Search.IsOnJobsPage(href) ==>
        var r := RunRounds(rounds, old(isRunning));
        exit == r.exit && outcomes == r.outcomes && isRunning == r.running
      ensures jobsApplied == old(jobsApplied) + AppliedCount(outcomes)
      ensures |sent| == AppliedCount(outcomes) && CountsFrom(sent, old(jobsApplied))
    {
      if !Search.IsOnJobsPage(href) || Search.NavigateToJobSearch(href, currentQuery, settings) {
        return NeedsNavigation, [], [];
      }
      outcomes, sent := [], [];
      var r := 0;
      assert rounds[r..] == rounds;
      while isRunning && r < |rounds|
        invariant 0 <= r <= |rounds|
        invariant Valid() && settings == old(settings)
        invariant RunRounds(rounds, old(isRunning)) == Prepend(outcomes, RunRounds(rounds[r..], isRunning))
        invariant jobsApplied == old(jobsApplied) + AppliedCount(outcomes)
        invariant |sent| == AppliedCount(outcomes) && CountsFrom(sent, old(jobsApplied))
      {
        RunRoundsStep(rounds, r);
        var exhausted, batch, batchSent := LoopPass(rounds[r]);
        r := r + 1;
        AppliedCountAppend(outcomes, batch);
        CountsFromAppend(sent, batchSent, old(jobsApplied));
        PrependTwice(outcomes, batch, RunRounds(rounds[r..], isRunning));
        outcomes, sent := outcomes + batch, sent + batchSent;
        if exhausted {
          return ResultsExhausted, outcomes, sent;
        }
      }
      exit := if isRunning then ObservationEnded else Stopped;
    }
  }

  /** The outer loop, one round unfolded. */
  lemma RunRoundsStep(rounds: seq<Round>, r: nat)
    requires r < |rounds|
    ensures RunRounds(rounds[r..], true) ==
      var p := Pass(rounds[r]);
      if p.exhausted then RunResult(p.outcomes, ResultsExhausted, p.running)
      else Prepend(p.outcomes, RunRounds(rounds[r + 1..], p.running))
  {
    assert rounds[r..][1..] == rounds[r + 1..];
  }

  lemma PrependTwice(a: seq<CardOutcome>, b: seq<CardOutcome>, x: RunResult)
    ensures Prepend(a, Prepend(b, x)) == Prepend(a + b, x)
  {
    assert a + (b + x.outcomes) == (a + b) + x.outcomes;
  }

  // ----- counting -----

  /** The count over two runs of outcomes is the sum of their counts. */
  lemma {:induction false} AppliedCountAppend(a: seq<CardOutcome>, b: seq<CardOutcome>)
    ensures AppliedCount(a + b) == AppliedCount(a) + AppliedCount(b)
    decreases |b|
  {
    if b == [] {
      assert a + b == a;
    } else {
      var b' := b[..|b| - 1];
      assert (a + b)[..|a + b| - 1] == a + b';
      AppliedCountAppend(a, b');
    }
  }

  /** Appending one outcome adds one to the count exactly when it is a success. */
  lemma AppliedCountSnoc(os: seq<CardOutcome>, o: CardOutcome)
    ensures AppliedCount(os + [o]) == AppliedCount(os) + if o == Applied then 1 else 0
  {
    assert (os + [o])[..|os|] == os;
  }

  lemma CountsFromAppend(s: seq<nat>, t: seq<nat>, start: nat)
    requires CountsFrom(s, start) && CountsFrom(t, start + |s|)
    ensures CountsFrom(s + t, start)
  {
  }

  /**
   * A card adds exactly one to the counter when it is an Easy Apply card,
   * its apply button is there and the driver succeeds on it; any other card
   * adds nothing.
   */
  lemma {:induction false} CountAddsOnePerSuccess(cards: seq<Card>, c: Card)
    ensures AppliedCount(Outcomes(cards + [c])) ==
      AppliedCount(Outcomes(cards))
      + if Scanner.IsEasyApplyJob(c.view) && c.hasApplyButton && Driver.Drive(c.flow).applied then 1 else 0
  {
    assert (cards + [c])[..|cards|] == cards;
    AppliedCountSnoc(Outcomes(cards), Outcome(c));
  }

  // ----- the run as a whole -----

  /** No card before a STOP has one: the first STOP is at or before any card carrying one. */
  lemma {:induction false} FirstStopBound(cards: seq<Card>, i: nat)
    requires i < |cards| && cards[i].stopRequested
    ensures FirstStop(cards) <= i
  {
    if i > 0 && !cards[0].stopRequested {
      FirstStopBound(cards[1..], i - 1);
    }
  }

  lemma FirstStopPast(cards: seq<Card>, i: nat)
    requires i < |cards| && i <= FirstStop(cards) && !cards[i].stopRequested
    ensures i < FirstStop(cards)
  {
  }

  /** The inner loop's bookkeeping for one card handled while running. */
  lemma BatchStep(cards: seq<Card>, i: nat, outcomes: seq<CardOutcome>, sent: seq<nat>, start: nat,
                  o: CardOutcome, cardSent: seq<nat>)
    requires i < |cards| && i <= FirstStop(cards) && !cards[i].stopRequested
    requires outcomes == Outcomes(cards[..i])
    requires |sent| == AppliedCount(outcomes) && CountsFrom(sent, start)
    requires o == Outcome(cards[i])
    requires cardSent == if o == Applied then [start + AppliedCount(outcomes) + 1] else []
    ensures i + 1 <= FirstStop(cards)
    ensures outcomes + [o] == Outcomes(cards[..i + 1])
    ensures AppliedCount(outcomes + [o]) == AppliedCount(outcomes) + if o == Applied then 1 else 0
    ensures |sent + cardSent| == AppliedCount(outcomes + [o]) && CountsFrom(sent + cardSent, start)
  {
    FirstStopPast(cards, i);
    OutcomesSnoc(cards, i);
    AppliedCountSnoc(outcomes, o);
    CountsFromAppend(sent, cardSent, start);
  }

  lemma OutcomesSnoc(cards: seq<Card>, i: nat)
    requires i < |cards|
    ensures Outcomes(cards[..i + 1]) == Outcomes(cards[..i]) + [Outcome(cards[i])]
  {
    assert cards[..i + 1][..i] == cards[..i];
  }

  lemma {:induction false} OutcomesAppend(a: seq<Card>, b: seq<Card>)
    ensures Outcomes(a + b) == Outcomes(a) + Outcomes(b)
    decreases |b|
  {
    if b == [] {
      assert a + b == a;
    } else {
      var b' := b[..|b| - 1];
      assert (a + b)[..|a + b| - 1] == a + b';
      OutcomesAppend(a, b');
    }
  }

  /** All the cards the observed scans return, one scan after another. */
  function AllCards(rounds: seq<Round>): seq<Card>
  {
    if rounds == [] then [] else rounds[0].cards + AllCards(rounds[1..])
  }

  lemma {:induction false} FirstStopAppend(a: seq<Card>, b: seq<Card>)
    ensures FirstStop(a + b) == if FirstStop(a) < |a| then FirstStop(a) else |a| + FirstStop(b)
  {
    if a != [] {
      assert (a + b)[1..] == a[1..] + b;
      FirstStopAppend(a[1..], b);
    } else {
      assert a + b == b;
    }
  }

  /**
   * The run handles a prefix of the scanned cards, in document order, each
   * scanned entry once, and stops at or before the first card a STOP arrived ahead of:
   * no card after a STOP is handled.
   */
  lemma {:induction false} RunHandlesPrefixBeforeStop(rounds: seq<Round>, running: bool)
    ensures exists m: nat ::
      && m <= FirstStop(AllCards(rounds))
      && RunRounds(rounds, running).outcomes == Outcomes(AllCards(rounds)[..m])
    decreases |rounds|
  {
    var all := AllCards(rounds);
    if !running || rounds == [] {
      assert RunRounds(rounds, running).outcomes == Outcomes(all[..0]);
    } else {
      var rd, later := rounds[0], rounds[1..];
      var p := Pass(rd);
      assert all == rd.cards + AllCards(later);
      FirstStopAppend(rd.cards, AllCards(later));
      if p.exhausted || !p.running {
        PassOutcomesPrefix(rd, AllCards(later));
        assert RunRounds(rounds, running).outcomes == p.outcomes;
      } else {
        RunHandlesPrefixBeforeStop(later, true);
        var m': nat :| m' <= FirstStop(AllCards(later))
          && RunRounds(later, true).outcomes == Outcomes(AllCards(later)[..m']);
        PassThenPrefix(rd, AllCards(later), m');
      }
    }
  }

  /** A pass handles the cards of its scan before the first STOP. */
  lemma PassOutcomesPrefix(rd: Round, rest: seq<Card>)
    ensures Pass(rd).outcomes == Outcomes((rd.cards + rest)[..FirstStop(rd.cards)])
  {
    var k := FirstStop(rd.cards);
    assert (rd.cards + rest)[..k] == rd.cards[..k];
  }

  /** A pass that handled its whole scan, followed by a prefix of the later cards, handled a prefix of all. */
  lemma PassThenPrefix(rd: Round, rest: seq<Card>, m: nat)
    requires Pass(rd).running && m <= |rest|
    ensures Pass(rd).outcomes + Outcomes(rest[..m]) == Outcomes((rd.cards + rest)[..|rd.cards| + m])
  {
    if rd.cards != [] {
      assert rd.cards[..FirstStop(rd.cards)] == rd.cards;
    }
    assert (rd.cards + rest)[..|rd.cards| + m] == rd.cards + rest[..m];
    OutcomesAppend(rd.cards, rest[..m]);
  }

  /**
   * A STOP arriving before a card of the first scan ends the run after that
   * scan: the run's outcomes are those of the cards before it, whatever the
   * later scans hold, and the agent is left not running.
   */
  lemma StopMidBatchEndsRun(rd: Round, later: seq<Round>)
    requires FirstStop(rd.cards) < |rd.cards|
    ensures RunRounds([rd] + later, true).outcomes == Outcomes(rd.cards[..FirstStop(rd.cards)])
    ensures !RunRounds([rd] + later, true).running
  {
    assert ([rd] + later)[1..] == later;
  }

  /** A scan that finds no cards is not terminal: the loop waits and scans again. */
  lemma EmptyScanRetries(n: nat, later: seq<Round>)
    ensures RunRounds([Round([], n, false)] + later, true) == RunRounds(later, true)
  {
    assert ([Round([], n, false)] + later)[1..] == later;
  }

  /** A scroll that loads no new cards ends the run after the current scan. */
  lemma StagnantScanEndsRun(rd: Round, later: seq<Round>)
    requires rd.cards != [] && rd.cardsAfterScroll == |rd.cards|
    ensures RunRounds([rd] + later, true).exit == ResultsExhausted
    ensures RunRounds([rd] + later, true).outcomes == Outcomes(rd.cards[..FirstStop(rd.cards)])
  {
  }
}
