/**
 The publisher object: its memory is updated in place by each scan, and `Finish` makes the
 last tries once the work has ended. What a scan does is specified by `Publisher.AfterScan`.
 */
module PublisherThread {
  import opened Common
  import opened Sorting
  import opened Publisher

  const FINAL_TRIES: nat := 6

  /** What reading the output folder once more gives; a missing folder is an empty listing. */
  datatype Relisting = Missing | Failed | Listed(entries: seq<Entry>)

  ghost predicate StepsAscend(s: seq<nat>)
  {
    forall i, j :: 0 <= i < j < |s| ==> s[i] < s[j]
  }

  function InsertStep(x: nat, s: seq<nat>): (r: seq<nat>)
    ensures forall y :: y in r <==> y == x || y in s
  {
    if s == [] || x < s[0] then [x] + s
    else if x == s[0] then s
    else
      assert s == [s[0]] + s[1..];
      [s[0]] + InsertStep(x, s[1..])
  }

  lemma {:induction false} InsertAscends(x: nat, s: seq<nat>)
    requires StepsAscend(s)
    ensures StepsAscend(InsertStep(x, s))
  {
    if s != [] && x > s[0] {
      var rest := InsertStep(x, s[1..]);
      InsertAscends(x, s[1..]);
      forall k | 0 <= k < |rest|
        ensures s[0] < rest[k]
      {
        assert rest[k] in rest;
      }
    }
  }

  /** The steps listed and not published, ascending and without repetition. */
  function LeftOver(entries: seq<Entry>, published: set<nat>): (r: seq<nat>)
    ensures StepsAscend(r)
  {
    if entries == [] then []
    else
      var n := |entries| - 1;
      var before, step := LeftOver(entries[..n], published), FolderStep(entries[n]);
      if step.Some? && step.value !in published then
        InsertAscends(step.value, before);
        InsertStep(step.value, before)
      else before
  }

  lemma {:induction false} LeftOverMembers(entries: seq<Entry>, published: set<nat>, step: nat)
    ensures step in LeftOver(entries, published) <==>
            step !in published && exists i :: 0 <= i < |entries| && FolderStep(entries[i]) == Some(step)
  {
    if entries != [] {
      var n := |entries| - 1;
      LeftOverMembers(entries[..n], published, step);
      assert entries == entries[..n] + [entries[n]];
      if FolderStep(entries[n]) != Some(step) {
        assert forall i :: 0 <= i < |entries| && FolderStep(entries[i]) == Some(step)
                           ==> i < n && FolderStep(entries[..n][i]) == Some(step);
      }
    }
  }

  /** `unpublished_steps`: any entry that cannot be read makes the answer unknown. */
  function UnpublishedSteps(relisting: Relisting, published: set<nat>): (r: Option<seq<nat>>)
  {
    match relisting
    case Missing => Some([])
    case Failed => None
    case Listed(entries) => if Unreadable in entries then None else Some(LeftOver(entries, published))
  }

  function LostLines(left: seq<nat>): (r: seq<Line>)
    ensures |r| == |left|
    ensures forall i :: 0 <= i < |left| ==> r[i] == Lost(left[i])
  {
    seq(|left|, i requires 0 <= i < |left| => Lost(left[i]))
  }

  function Unwaiting(scans: seq<Scan>): (r: seq<(Scan, bool)>)
  {
    seq(|scans|, i requires 0 <= i < |scans| => (scans[i], false))
  }

  /** What `Finish` reports after its last try. */
  ghost predicate Reported(relisting: Relisting, s: State, before: seq<Line>, after: seq<Line>, lastTry: bool)
  {
    match UnpublishedSteps(relisting, s.published)
    case Some(left) => after == before + LostLines(left) && (left == [] || lastTry)
    case None => after == before + [LostUnknown] && lastTry
  }

  /** Scan `k` of the finish left steps unpublished, or could not tell. */
  ghost predicate LeavesSome(start: State, scans: seq<Scan>, relistings: seq<Relisting>, k: nat)
    requires k < |scans| && k < |relistings|
  {
    UnpublishedSteps(relistings[k], AfterAll(start, Unwaiting(scans[..k + 1])).published) != Some([])
  }

  class PublishState {
    var published: set<nat>
    var seen: map<nat, Fingerprint>
    var conflictsReported: set<nat>
    var log: seq<Line>

    ghost function Memory(): (s: State)
      reads this
    {
      State(published, seen, conflictsReported, log)
    }

    /** A fresh memory: at the start, and again when the scanning thread has panicked. */
    constructor ()
      ensures Memory() == FRESH
    {
      published, seen, conflictsReported, log := {}, map[], {}, [];
    }

    method Collect(entries: seq<Entry>) returns (all: seq<StepFolder>)
      ensures all == StepFolders(entries)
    {
      all := [];
      for i := 0 to |entries|
        invariant all == StepFolders(entries[..i])
      {
        assert entries[..i + 1][..i] == entries[..i];
        var step := FolderStep(entries[i]);
        if step.Some? {
          all := all + [StepFolder(step.value, entries[i].name)];
        }
      }
      assert entries[..|entries|] == entries;
    }

    method Select(all: seq<StepFolder>) returns (ready: seq<StepFolder>)
      modifies this
      ensures Memory() == Screen(old(Memory()), all, all)
      ensures ready == Ready(old(published), all, all)
    {
      ready := [];
      ScreenOnlyNotes(Memory(), all, all[..0]);
      for i := 0 to |all|
        invariant Memory() == Screen(old(Memory()), all, all[..i]) && published == old(published)
        invariant ready == Ready(old(published), all, all[..i])
      {
        assert all[..i + 1][..i] == all[..i];
        var step := all[i].step;
        if step !in published {
          if Count(all, step) > 1 {
            if step !in conflictsReported {
              conflictsReported := conflictsReported + {step};
              log := log + [NameConflict(step)];
            }
          } else {
            ready := ready + [all[i]];
          }
        }
      }
      assert all[..|all|] == all;
    }

    method VisitFolder(r: StepFolder, scan: Scan, requireStable: bool)
      modifies this
      ensures Memory() == Visit(old(Memory()), r, scan, requireStable)
    {
      if requireStable {
        var now := scan.look(r.folder);
        if now.None? { return; }
        var previous := if r.step in seen then Some(seen[r.step]) else None;
        seen := seen[r.step := now.value];
        if previous != now { return; }
      }
      if scan.publishOk(r.folder) {
        log := log + [Published(r.step, r.folder)];
        published := published + {r.step};
        seen := seen - {r.step};
      } else {
        log := log + [PublishFailed(r.step)];
      }
    }

    /** `publish_ready_steps`. */
    method PublishReadySteps(scan: Scan, requireStable: bool)
      modifies this
      ensures Memory() == AfterScan(old(Memory()), scan, requireStable)
    {
      if scan.listing.None? { return; }
      var all := Collect(scan.listing.value);
      var ready := Select(all);
      ready := Sort(ready, Less());
      ghost var screened := Memory();
      for i := 0 to |ready|
        invariant Memory() == VisitAll(screened, ready[..i], scan, requireStable)
      {
        assert ready[..i + 1][..i] == ready[..i];
        VisitFolder(ready[i], scan, requireStable);
      }
      assert ready[..|ready|] == ready;
    }

    /**
     `finish`, after the scanning thread has ended: up to six scans that do not wait, then what was
     lost is reported.
     */
    method Finish(scans: seq<Scan>, relistings: seq<Relisting>) returns (last: nat)
      requires |scans| == |relistings| == 6
      modifies this
      ensures last < 6
      ensures var s := AfterAll(old(Memory()), Unwaiting(scans[..last + 1]));
              && published == s.published && seen == s.seen && conflictsReported == s.conflicts
              && Reported(relistings[last], s, s.log, log, last == 5)
      // It goes on exactly as long as something is left.
      ensures forall k :: 0 <= k < last ==> LeavesSome(old(Memory()), scans, relistings, k)
    {
      ghost var start := Memory();
      for attempt := 0 to FINAL_TRIES
        invariant Memory() == AfterAll(start, Unwaiting(scans[..attempt]))
        invariant start == old(Memory())
        invariant attempt < FINAL_TRIES
        invariant forall k :: 0 <= k < attempt ==> LeavesSome(start, scans, relistings, k)
      {
        assert Unwaiting(scans[..attempt + 1])[..attempt] == Unwaiting(scans[..attempt]);
        PublishReadySteps(scans[attempt], false);
        var left := UnpublishedSteps(relistings[attempt], published);
        if left == Some([]) {
          return attempt;
        }
        if attempt == FINAL_TRIES - 1 {
          match left {
            case Some(steps) => log := log + LostLines(steps);
            case None => log := log + [LostUnknown];
          }
          return attempt;
        }
      }
      assert false;
    }
  }

  /**
   After `Finish`: each step of the final listing is published or reported lost, never both, unless
   the listing itself failed and that is reported.
   */
  lemma EveryStepAccountedFor(entries: seq<Entry>, i: nat, step: nat, s: State, before: seq<Line>, after: seq<Line>,
      lastTry: bool)
    requires Reported(Listed(entries), s, before, after, lastTry)
    requires i < |entries| && FolderStep(entries[i]) == Some(step)
    ensures before <= after
    ensures if Unreadable in entries then after == before + [LostUnknown]
            else step in s.published <==> Lost(step) !in after[|before|..]
  {
    if Unreadable !in entries {
      var left := LeftOver(entries, s.published);
      LeftOverMembers(entries, s.published, step);
      assert after[|before|..] == LostLines(left);
      if step in left {
        var k :| 0 <= k < |left| && left[k] == step;
        assert LostLines(left)[k] == Lost(step);
      }
    }
  }

  // ---------------------------------------------------------------- panics

  /**
   A scan, or a scan in which the thread panics after it has reported `lines` lines: what was
   reported stays, the memory starts afresh.
   */
  datatype Round = Scanned(scan: Scan, stable: bool) | Panicked(scan: Scan, stable: bool, lines: nat)

  function Prefix(log: seq<Line>, n: nat): (r: seq<Line>)
  {
    if n <= |log| then log[..n] else log
  }

  function AfterRound(s: State, r: Round): (t: State)
  {
    var u := AfterScan(s, r.scan, r.stable);
    match r
    case Scanned(_, _) => u
    case Panicked(_, _, lines) => FRESH.(log := Prefix(u.log, |s.log| + lines))
  }

  function AfterRounds(rounds: seq<Round>): (t: State)
  {
    if rounds == [] then FRESH else AfterRound(AfterRounds(rounds[..|rounds| - 1]), rounds[|rounds| - 1])
  }

  /** How much had been reported when the memory last started afresh. */
  function SinceLine(rounds: seq<Round>): (base: nat)
  {
    if rounds == [] then 0
    else if rounds[|rounds| - 1].Panicked? then |AfterRounds(rounds).log|
    else SinceLine(rounds[..|rounds| - 1])
  }

  lemma LogGrows(s: State, scan: Scan, stable: bool)
    ensures s.log <= AfterScan(s, scan, stable).log
  {
    PublishesIff(s, scan, stable, 0, "");
  }

  /** Since the last panic each step has been published at most once; without one, since the beginning. */
  lemma {:induction false} RecordedSincePanic(rounds: seq<Round>)
    ensures RecordedFrom(AfterRounds(rounds), SinceLine(rounds))
    ensures (forall k :: 0 <= k < |rounds| ==> rounds[k].Scanned?) ==> SinceLine(rounds) == 0
  {
    if rounds != [] {
      var n := |rounds| - 1;
      RecordedSincePanic(rounds[..n]);
      if rounds[n].Scanned? {
        ScanRecorded(AfterRounds(rounds[..n]), SinceLine(rounds[..n]), rounds[n].scan, rounds[n].stable);
      }
    }
  }

  lemma NoPanicAtMostOnce(rounds: seq<Round>)
    requires forall k :: 0 <= k < |rounds| ==> rounds[k].Scanned?
    ensures Recorded(AfterRounds(rounds))
  {
    RecordedSincePanic(rounds);
  }

  /** Round `k` panicked, with line `i` reported before the memory was lost and line `j` after it. */
  ghost predicate PanicBetween(rounds: seq<Round>, k: nat, i: nat, j: nat)
    requires k < |rounds|
  {
    rounds[k].Panicked? && i < |AfterRounds(rounds[..k + 1]).log| <= j
  }

  lemma {:induction false} SinceIsPanic(rounds: seq<Round>) returns (k: nat)
    requires SinceLine(rounds) > 0
    ensures k < |rounds| && rounds[k].Panicked? && |AfterRounds(rounds[..k + 1]).log| == SinceLine(rounds)
  {
    var n := |rounds| - 1;
    if rounds[n].Panicked? {
      k := n;
      assert rounds[..n + 1] == rounds;
    } else {
      k := SinceIsPanic(rounds[..n]);
      assert rounds[..n][..k + 1] == rounds[..k + 1];
    }
  }

  /** Between two publications of one step there is always a panic. */
  lemma {:induction false} TwiceNeedsPanic(rounds: seq<Round>, i: nat, j: nat, step: nat)
    requires i < j < |AfterRounds(rounds).log|
    requires PublishedAt(AfterRounds(rounds).log, i, step) && PublishedAt(AfterRounds(rounds).log, j, step)
    ensures exists k :: 0 <= k < |rounds| && PanicBetween(rounds, k, i, j)
    decreases |rounds|
  {
    var n := |rounds| - 1;
    var s := AfterRounds(rounds[..n]);
    var u := AfterScan(s, rounds[n].scan, rounds[n].stable);
    var base := SinceLine(rounds[..n]);
    LogGrows(s, rounds[n].scan, rounds[n].stable);
    assert AfterRounds(rounds).log <= u.log;
    if j < |s.log| {
      assert PublishedAt(s.log, i, step) && PublishedAt(s.log, j, step);
      TwiceNeedsPanic(rounds[..n], i, j, step);
      var k :| 0 <= k < n && PanicBetween(rounds[..n], k, i, j);
      assert rounds[..n][..k + 1] == rounds[..k + 1];
      assert PanicBetween(rounds, k, i, j);
    } else {
      RecordedSincePanic(rounds[..n]);
      ScanRecorded(s, base, rounds[n].scan, rounds[n].stable);
      assert PublishedAt(u.log, i, step) && PublishedAt(u.log, j, step);
      var k := SinceIsPanic(rounds[..n]);
      assert rounds[..n][..k + 1] == rounds[..k + 1];
      assert PanicBetween(rounds, k, i, j);
    }
  }

  lemma RoundsSnoc(rounds: seq<Round>, r: Round)
    ensures AfterRounds(rounds + [r]) == AfterRound(AfterRounds(rounds), r)
  {
    assert (rounds + [r])[..|rounds|] == rounds;
  }

  ghost predicate PublishedTwice(log: seq<Line>, step: nat)
  {
    exists i, j :: 0 <= i < j < |log| && PublishedAt(log, i, step) && PublishedAt(log, j, step)
  }

  lemma InBothParts(before: seq<Line>, log: seq<Line>, step: nat, folder: string)
    requires before <= log && Published(step, folder) in before && Published(step, folder) in log[|before|..]
    ensures PublishedTwice(log, step)
  {
    var i :| 0 <= i < |before| && before[i] == Published(step, folder);
    var j :| 0 <= j < |log[|before|..]| && log[|before|..][j] == Published(step, folder);
    assert PublishedAt(log, i, step) && PublishedAt(log, |before| + j, step);
  }

  /**
   The rounds the publisher makes: `n` waiting scans of the thread, a panic only as the last of
   them, then at most six scans of `Finish` that do not wait.
   */
  ghost predicate Schedule(rounds: seq<Round>, n: nat)
  {
    && n <= |rounds| <= n + FINAL_TRIES
    && (forall k :: 0 <= k < n ==> rounds[k].stable && (rounds[k].Panicked? ==> k == n - 1))
    && (forall k :: n <= k < |rounds| ==> rounds[k].Scanned? && !rounds[k].stable)
  }

  /** The thread panicked in round `n - 1`. */
  predicate PanickedAt(rounds: seq<Round>, n: nat)
  {
    0 < n <= |rounds| && rounds[n - 1].Panicked?
  }

  /**
   After the panic, a scan of `Finish` publishes a folder, published before or not, exactly when it
   stands alone and publishing works.
   */
  lemma PanicPublishesAgain(rounds: seq<Round>, scan: Scan, step: nat, folder: string)
    requires Schedule(rounds, |rounds|) && PanickedAt(rounds, |rounds|)
    ensures var more := rounds + [Scanned(scan, false)];
            var before, after := AfterRounds(rounds).log, AfterRounds(more).log;
            && Schedule(more, |rounds|) && before <= after
            && (Published(step, folder) in after[|before|..] <==> Sole(scan, step, folder) && scan.publishOk(folder))
  {
    var more := rounds + [Scanned(scan, false)];
    assert forall k :: 0 <= k < |rounds| ==> more[k] == rounds[k];
    RoundsSnoc(rounds, Scanned(scan, false));
    assert AfterRounds(rounds).published == {};
    PublishesIff(AfterRounds(rounds), scan, false, step, folder);
  }

  ghost predicate PublishedIn(log: seq<Line>, step: nat)
  {
    exists i :: 0 <= i < |log| && PublishedAt(log, i, step)
  }

  /** The scan shows one folder of the step, and publishing it works. */
  ghost predicate Offers(scan: Scan, step: nat)
  {
    exists folder :: Sole(scan, step, folder) && scan.publishOk(folder)
  }

  /** A step that is new after a scan was published by it. */
  lemma PublishedByScan(s: State, base: nat, scan: Scan, stable: bool, step: nat) returns (folder: string)
    requires RecordedFrom(s, base) && step !in s.published && step in AfterScan(s, scan, stable).published
    ensures Sole(scan, step, folder) && Goes(s, StepFolder(step, folder), scan, stable)
  {
    var t := AfterScan(s, scan, stable);
    LogGrows(s, scan, stable);
    ScanRecorded(s, base, scan, stable);
    var i :| base <= i < |t.log| && PublishedAt(t.log, i, step);
    assert i < |s.log| ==> PublishedAt(s.log, i, step);
    folder := t.log[i].folder;
    assert t.log[|s.log|..][i - |s.log|] == t.log[i];
    PublishesIff(s, scan, stable, step, folder);
  }

  /** A scan that does not wait publishes what it offers. */
  lemma ScanPublishes(s: State, base: nat, scan: Scan, step: nat)
    requires RecordedFrom(s, base)
    ensures step in AfterScan(s, scan, false).published <==> step in s.published || Offers(scan, step)
  {
    var t := AfterScan(s, scan, false);
    LogGrows(s, scan, false);
    ScanRecorded(s, base, scan, false);
    if step in s.published {
      var i :| base <= i < |s.log| && PublishedAt(s.log, i, step);
      assert PublishedAt(t.log, i, step);
    } else {
      if step in t.published {
        var folder := PublishedByScan(s, base, scan, false, step);
        assert Offers(scan, step);
      }
      if folder :| Sole(scan, step, folder) && scan.publishOk(folder) {
        PublishesIff(s, scan, false, step, folder);
        var i :| 0 <= i < |t.log[|s.log|..]| && t.log[|s.log|..][i] == Published(step, folder);
        assert PublishedAt(t.log, |s.log| + i, step);
      }
    }
  }

  /** What `Finish` has published since the panic is what some scan of it offered. */
  lemma {:induction false} FinishPublishes(rounds: seq<Round>, n: nat, step: nat)
    requires Schedule(rounds, n) && PanickedAt(rounds, n)
    ensures SinceLine(rounds) == |AfterRounds(rounds[..n]).log|
    ensures AfterRounds(rounds[..n]).log <= AfterRounds(rounds).log
    ensures step in AfterRounds(rounds).published <==> exists k :: n <= k < |rounds| && Offers(rounds[k].scan, step)
    decreases |rounds|
  {
    var last := |rounds| - 1;
    if |rounds| == n {
      assert rounds[..n] == rounds;
    } else {
      var init := rounds[..last];
      assert init[..n] == rounds[..n] && rounds == init + [rounds[last]];
      FinishPublishes(init, n, step);
      RecordedSincePanic(init);
      LogGrows(AfterRounds(init), rounds[last].scan, false);
      ScanPublishes(AfterRounds(init), SinceLine(init), rounds[last].scan, step);
    }
  }

  /**
   The exact boundary of at most once, over every run the publisher can make: a step is
   published twice exactly when the thread had published it, then panicked, and some scan of
   `Finish` shows one folder of the step that can be published.
   */
  lemma PublishedTwiceIff(rounds: seq<Round>, n: nat, step: nat)
    requires Schedule(rounds, n)
    ensures PublishedTwice(AfterRounds(rounds).log, step) <==>
              && PanickedAt(rounds, n)
              && PublishedIn(AfterRounds(rounds[..n]).log, step)
              && exists k :: n <= k < |rounds| && Offers(rounds[k].scan, step)
  {
    if PublishedTwice(AfterRounds(rounds).log, step) {
      TwiceMeans(rounds, n, step);
    }
    if PanickedAt(rounds, n) {
      FinishPublishes(rounds, n, step);
      if PublishedIn(AfterRounds(rounds[..n]).log, step) && step in AfterRounds(rounds).published {
        BeforeAndSince(rounds, n, step);
      }
    }
  }

  lemma OnlyPanic(rounds: seq<Round>, n: nat, k: nat)
    requires Schedule(rounds, n) && k < |rounds| && rounds[k].Panicked?
    ensures k == n - 1 && PanickedAt(rounds, n)
  {
  }

  lemma TwiceMeans(rounds: seq<Round>, n: nat, step: nat)
    requires Schedule(rounds, n) && PublishedTwice(AfterRounds(rounds).log, step)
    ensures PanickedAt(rounds, n) && PublishedIn(AfterRounds(rounds[..n]).log, step)
    ensures step in AfterRounds(rounds).published
  {
    var log := AfterRounds(rounds).log;
    var i, j :| 0 <= i < j < |log| && PublishedAt(log, i, step) && PublishedAt(log, j, step);
    TwiceNeedsPanic(rounds, i, j, step);
    var k :| 0 <= k < |rounds| && PanicBetween(rounds, k, i, j);
    OnlyPanic(rounds, n, k);
    FinishPublishes(rounds, n, step);
    RecordedSincePanic(rounds);
    assert PublishedAt(AfterRounds(rounds[..n]).log, i, step);
  }

  lemma BeforeAndSince(rounds: seq<Round>, n: nat, step: nat)
    requires Schedule(rounds, n) && PanickedAt(rounds, n)
    requires PublishedIn(AfterRounds(rounds[..n]).log, step) && step in AfterRounds(rounds).published
    ensures PublishedTwice(AfterRounds(rounds).log, step)
  {
    var before, log := AfterRounds(rounds[..n]).log, AfterRounds(rounds).log;
    FinishPublishes(rounds, n, step);
    RecordedSincePanic(rounds);
    var i :| 0 <= i < |before| && PublishedAt(before, i, step);
    var j :| |before| <= j < |log| && PublishedAt(log, j, step);
    assert PublishedAt(log, i, step);
  }

  /** The thread looks twice at a folder that does not change, publishes it and panics. */
  function TwiceThenPanic(scan: Scan): (rounds: seq<Round>)
  {
    [] + [Scanned(scan, true)] + [Scanned(scan, true)] + [Panicked(scan, true, 0)]
  }

  lemma PublishedAtSecondLook(scan: Scan, step: nat, folder: string)
    requires Sole(scan, step, folder) && scan.publishOk(folder) && scan.look(folder).Some?
    ensures var s := AfterScan(AfterScan(FRESH, scan, true), scan, true); Published(step, folder) in s.log
  {
    var once := AfterScan(FRESH, scan, true);
    if step in once.published {
      var other := PublishedByScan(FRESH, 0, scan, true, step);
    }
    SeenAfterScan(FRESH, scan, step);
    assert Looked(scan, step, folder);
    forall other | Looked(scan, step, other)
      ensures other == folder
    {
      SoleUnique(scan, step, folder, other);
    }
    PublishesIff(once, scan, true, step, folder);
  }

  lemma PanicKeepsLog(rounds: seq<Round>, scan: Scan)
    ensures AfterRounds(rounds + [Panicked(scan, true, 0)]).log == AfterRounds(rounds).log
  {
    RoundsSnoc(rounds, Panicked(scan, true, 0));
    LogGrows(AfterRounds(rounds), scan, true);
  }

  lemma TwoScans(scan: Scan)
    ensures AfterRounds([] + [Scanned(scan, true)] + [Scanned(scan, true)])
            == AfterScan(AfterScan(FRESH, scan, true), scan, true)
  {
    RoundsSnoc([], Scanned(scan, true));
    RoundsSnoc([] + [Scanned(scan, true)], Scanned(scan, true));
  }

  lemma LooksPublish(scan: Scan, step: nat, folder: string)
    requires Sole(scan, step, folder) && scan.publishOk(folder) && scan.look(folder).Some?
    ensures Published(step, folder) in AfterRounds(TwiceThenPanic(scan)).log
  {
    PublishedAtSecondLook(scan, step, folder);
    TwoScans(scan);
    PanicKeepsLog([] + [Scanned(scan, true)] + [Scanned(scan, true)], scan);
  }

  lemma LooksScheduled(scan: Scan)
    ensures Schedule(TwiceThenPanic(scan), 3) && PanickedAt(TwiceThenPanic(scan), 3)
  {
  }

  /** So the publisher has a run that publishes a step twice. */
  lemma PublishedTwiceRun(scan: Scan, step: nat, folder: string)
    requires Sole(scan, step, folder) && scan.publishOk(folder) && scan.look(folder).Some?
    ensures var rounds := TwiceThenPanic(scan) + [Scanned(scan, false)];
            Schedule(rounds, 3) && PublishedTwice(AfterRounds(rounds).log, step)
  {
    var rounds := TwiceThenPanic(scan);
    LooksPublish(scan, step, folder);
    LooksScheduled(scan);
    PanicPublishesAgain(rounds, scan, step, folder);
    InBothParts(AfterRounds(rounds).log, AfterRounds(rounds + [Scanned(scan, false)]).log, step, folder);
  }
}
