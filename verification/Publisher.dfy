/**
 The checkpoint publisher: scans of a changing output folder with memory. What a scan does to
 the memory is the function `AfterScan`; the class carries it out in place. A scan meets a
 listing, the look of each folder and the outcome of publishing each folder.
 */
module Publisher {
  import opened Common
  import opened Sorting
  import opened StepName

  /** File names, sizes and modification times of a folder. */
  datatype Fingerprint = Fingerprint(files: seq<(string, nat, Option<nat>)>)

  datatype Entry = Folder(name: string) | NotFolder(name: string) | Unreadable

  datatype Scan = Scan(listing: Option<seq<Entry>>, look: string -> Option<Fingerprint>, publishOk: string -> bool)

  datatype StepFolder = StepFolder(step: nat, folder: string)

  datatype Line =
    | Published(step: nat, folder: string) | PublishFailed(step: nat) | NameConflict(step: nat)
    | Lost(step: nat) | LostUnknown

  /** `PublishState` and what was reported. */
  datatype State = State(published: set<nat>, seen: map<nat, Fingerprint>, conflicts: set<nat>, log: seq<Line>)

  const FRESH: State := State({}, map[], {}, [])

  function FolderStep(e: Entry): (r: Option<nat>)
  {
    match e
    case Folder(name) => StepOf(name)
    case _ => None
  }

  /** The step folders of a listing, in its order; unreadable entries are passed over. */
  function StepFolders(entries: seq<Entry>): (r: seq<StepFolder>)
  {
    if entries == [] then []
    else
      var last := entries[|entries| - 1];
      StepFolders(entries[..|entries| - 1])
      + if FolderStep(last).Some? then [StepFolder(FolderStep(last).value, last.name)] else []
  }

  function Count(all: seq<StepFolder>, step: nat): (n: nat)
  {
    if all == [] then 0
    else Count(all[..|all| - 1], step) + if all[|all| - 1].step == step then 1 else 0
  }

  /** Notes the first conflict of a step. */
  function Screen(s: State, all: seq<StepFolder>, some: seq<StepFolder>): (r: State)
  {
    if some == [] then s
    else
      var before := Screen(s, all, some[..|some| - 1]);
      var step := some[|some| - 1].step;
      if step !in s.published && Count(all, step) > 1 && step !in before.conflicts
      then before.(conflicts := before.conflicts + {step}, log := before.log + [NameConflict(step)])
      else before
  }

  function Ready(published: set<nat>, all: seq<StepFolder>, some: seq<StepFolder>): (r: seq<StepFolder>)
  {
    if some == [] then []
    else
      var last := some[|some| - 1];
      Ready(published, all, some[..|some| - 1])
      + if last.step !in published && Count(all, last.step) <= 1 then [last] else []
  }

  function SeenAt(s: State, step: nat): (r: Option<Fingerprint>)
  {
    if step in s.seen then Some(s.seen[step]) else None
  }

  function Visit(s: State, r: StepFolder, scan: Scan, stable: bool): (t: State)
  {
    var now := scan.look(r.folder);
    if stable && now.None? then s
    else
      var remembered := if stable then s.(seen := s.seen[r.step := now.value]) else s;
      if stable && SeenAt(s, r.step) != now then remembered
      else if scan.publishOk(r.folder) then
        remembered.(published := s.published + {r.step}, seen := remembered.seen - {r.step},
                    log := s.log + [Published(r.step, r.folder)])
      else remembered.(log := s.log + [PublishFailed(r.step)])
  }

  function VisitAll(s: State, ready: seq<StepFolder>, scan: Scan, stable: bool): (t: State)
  {
    if ready == [] then s
    else Visit(VisitAll(s, ready[..|ready| - 1], scan, stable), ready[|ready| - 1], scan, stable)
  }

  /** By step; a ready list never holds the same step twice, so paths need no comparing. */
  function Less(): (less: (StepFolder, StepFolder) -> bool)
  {
    (a: StepFolder, b: StepFolder) => a.step < b.step
  }

  function AfterScan(s: State, scan: Scan, stable: bool): (t: State)
  {
    match scan.listing
    case None => s
    case Some(entries) =>
      var all := StepFolders(entries);
      VisitAll(Screen(s, all, all), Sort(Ready(s.published, all, all), Less()), scan, stable)
  }

  // ---------------------------------------------------------------- what a scan publishes

  /** The readable entries of the scan hold exactly one folder of this step, and it is this one. */
  ghost predicate Sole(scan: Scan, step: nat, folder: string)
  {
    scan.listing.Some? && SoleIn(StepFolders(scan.listing.value), step, folder)
  }

  ghost predicate SoleIn(all: seq<StepFolder>, step: nat, folder: string)
  {
    StepFolder(step, folder) in all && Count(all, step) == 1
  }

  /** Allowed by the memory: during execution the look must equal the one remembered. */
  predicate Goes(s: State, r: StepFolder, scan: Scan, stable: bool)
  {
    (stable ==> scan.look(r.folder).Some? && SeenAt(s, r.step) == scan.look(r.folder)) && scan.publishOk(r.folder)
  }

  lemma {:induction false} CountZero(all: seq<StepFolder>, step: nat)
    ensures Count(all, step) == 0 <==> forall i :: 0 <= i < |all| ==> all[i].step != step
  {
    if all != [] {
      CountZero(all[..|all| - 1], step);
      assert all == all[..|all| - 1] + [all[|all| - 1]];
    }
  }

  lemma {:induction false} CountTwo(all: seq<StepFolder>, i: nat, j: nat)
    requires i < j < |all| && all[i].step == all[j].step
    ensures Count(all, all[i].step) >= 2
  {
    var init, step := all[..|all| - 1], all[i].step;
    if j == |all| - 1 {
      CountZero(init, step);
      assert init[i].step == step;
    } else {
      CountTwo(init, i, j);
    }
  }

  ghost predicate DistinctSteps(ready: seq<StepFolder>)
  {
    forall i, j :: 0 <= i < j < |ready| ==> ready[i].step != ready[j].step
  }

  lemma {:induction false} ReadyMembers(published: set<nat>, all: seq<StepFolder>, some: seq<StepFolder>, r: StepFolder)
    ensures r in Ready(published, all, some) <==> r in some && r.step !in published && Count(all, r.step) <= 1
  {
    if some != [] {
      var init := some[..|some| - 1];
      ReadyMembers(published, all, init, r);
      assert some == init + [some[|some| - 1]];
    }
  }

  lemma {:induction false} ReadyDistinct(published: set<nat>, all: seq<StepFolder>, n: nat)
    requires n <= |all|
    ensures DistinctSteps(Ready(published, all, all[..n]))
  {
    if n > 0 {
      ReadyDistinct(published, all, n - 1);
      assert all[..n][..n - 1] == all[..n - 1];
      var before := Ready(published, all, all[..n - 1]);
      forall i | 0 <= i < |before| && Count(all, all[n - 1].step) <= 1
        ensures before[i].step != all[n - 1].step
      {
        assert before[i] in before;
        ReadyMembers(published, all, all[..n - 1], before[i]);
        var k :| 0 <= k < n - 1 && all[..n - 1][k] == before[i];
        if all[k].step == all[n - 1].step {
          CountTwo(all, k, n - 1);
        }
      }
    }
  }

  /** The ready list of a scan, in the order it is worked through. */
  ghost function WorkList(s: State, scan: Scan): (r: seq<StepFolder>)
    requires scan.listing.Some?
  {
    var all := StepFolders(scan.listing.value);
    Sort(Ready(s.published, all, all), Less())
  }

  lemma WorkListAscends(s: State, scan: Scan)
    requires scan.listing.Some?
    ensures Ascending(WorkList(s, scan), Less())
  {
    var all := StepFolders(scan.listing.value);
    assert all[..|all|] == all;
    ReadyDistinct(s.published, all, |all|);
    SortAscending(Ready(s.published, all, all), Less());
  }

  lemma WorkListDistinct(s: State, scan: Scan)
    requires scan.listing.Some?
    ensures DistinctSteps(WorkList(s, scan))
  {
    WorkListAscends(s, scan);
    var ready := WorkList(s, scan);
    forall i, j | 0 <= i < j < |ready|
      ensures ready[i].step != ready[j].step
    {
      assert Less()(ready[i], ready[j]);
    }
  }

  lemma WorkListMembers(s: State, scan: Scan, r: StepFolder)
    requires scan.listing.Some?
    ensures r in WorkList(s, scan) <==> r.step !in s.published && Sole(scan, r.step, r.folder)
  {
    var all := StepFolders(scan.listing.value);
    ReadyMembers(s.published, all, all, r);
    if r in all {
      CountZero(all, r.step);
      var i :| 0 <= i < |all| && all[i] == r;
      assert all[i].step == r.step;
    }
  }

  lemma SoleUnique(scan: Scan, step: nat, a: string, b: string)
    requires Sole(scan, step, a) && Sole(scan, step, b)
    ensures a == b
  {
    var all := StepFolders(scan.listing.value);
    var i :| 0 <= i < |all| && all[i] == StepFolder(step, a);
    var j :| 0 <= j < |all| && all[j] == StepFolder(step, b);
    if i < j {
      CountTwo(all, i, j);
    } else if j < i {
      CountTwo(all, j, i);
    }
  }

  lemma {:induction false} ScreenOnlyNotes(s: State, all: seq<StepFolder>, some: seq<StepFolder>)
    ensures var t := Screen(s, all, some);
            && t.published == s.published && t.seen == s.seen && s.log <= t.log
            && forall i :: |s.log| <= i < |t.log| ==> t.log[i].NameConflict?
  {
    if some != [] {
      ScreenOnlyNotes(s, all, some[..|some| - 1]);
    }
  }

  /** The memory of one step. */
  ghost predicate SameAt(s: State, t: State, step: nat)
  {
    (step in s.published <==> step in t.published) && SeenAt(s, step) == SeenAt(t, step)
  }

  lemma VisitElsewhere(s: State, r: StepFolder, scan: Scan, stable: bool, step: nat)
    requires r.step != step
    ensures SameAt(Visit(s, r, scan, stable), s, step)
  {
  }

  lemma VisitLocal(s: State, t: State, r: StepFolder, scan: Scan, stable: bool)
    requires SameAt(s, t, r.step)
    ensures SameAt(Visit(s, r, scan, stable), Visit(t, r, scan, stable), r.step)
    ensures Goes(s, r, scan, stable) == Goes(t, r, scan, stable)
  {
  }

  /** Visiting folders of other steps changes nothing for this step. */
  lemma {:induction false} VisitAllElsewhere(s: State, ready: seq<StepFolder>, scan: Scan, stable: bool, step: nat)
    requires forall i :: 0 <= i < |ready| ==> ready[i].step != step
    ensures SameAt(VisitAll(s, ready, scan, stable), s, step)
  {
    if ready != [] {
      var n := |ready| - 1;
      VisitAllElsewhere(s, ready[..n], scan, stable, step);
      VisitElsewhere(VisitAll(s, ready[..n], scan, stable), ready[n], scan, stable, step);
    }
  }

  /** Visiting its own folder does what visiting that folder alone does. */
  lemma {:induction false} VisitAllAt(s: State, ready: seq<StepFolder>, scan: Scan, stable: bool, i: nat)
    requires DistinctSteps(ready) && i < |ready|
    ensures SameAt(VisitAll(s, ready, scan, stable), Visit(s, ready[i], scan, stable), ready[i].step)
  {
    var n := |ready| - 1;
    var before := VisitAll(s, ready[..n], scan, stable);
    if i == n {
      VisitAllElsewhere(s, ready[..n], scan, stable, ready[n].step);
      VisitLocal(before, s, ready[n], scan, stable);
    } else {
      VisitAllAt(s, ready[..n], scan, stable, i);
      VisitElsewhere(before, ready[n], scan, stable, ready[i].step);
    }
  }

  lemma {:induction false} VisitAllLines(s: State, ready: seq<StepFolder>, scan: Scan, stable: bool, r: StepFolder)
    requires DistinctSteps(ready)
    ensures var t := VisitAll(s, ready, scan, stable);
            && s.log <= t.log
            && (Published(r.step, r.folder) in t.log[|s.log|..] <==> r in ready && Goes(s, r, scan, stable))
  {
    if ready != [] {
      var n := |ready| - 1;
      var p, t := VisitAll(s, ready[..n], scan, stable), VisitAll(s, ready, scan, stable);
      VisitAllLines(s, ready[..n], scan, stable, r);
      VisitAllElsewhere(s, ready[..n], scan, stable, ready[n].step);
      VisitLocal(p, s, ready[n], scan, stable);
      assert ready == ready[..n] + [ready[n]];
      assert t.log == p.log || t.log[|s.log|..] == p.log[|s.log|..] + [t.log[|p.log|]];
    }
  }

  /**
   A scan publishes a folder exactly when it is the only readable one of an unpublished step and the
   memory allows it.
   */
  lemma PublishesIff(s: State, scan: Scan, stable: bool, step: nat, folder: string)
    ensures var t := AfterScan(s, scan, stable);
            && s.log <= t.log
            && (Published(step, folder) in t.log[|s.log|..] <==>
                && step !in s.published
                && Sole(scan, step, folder)
                && Goes(s, StepFolder(step, folder), scan, stable))
  {
    if scan.listing.Some? {
      var all := StepFolders(scan.listing.value);
      var screened, t := Screen(s, all, all), AfterScan(s, scan, stable);
      ScreenOnlyNotes(s, all, all);
      WorkListDistinct(s, scan);
      WorkListMembers(s, scan, StepFolder(step, folder));
      VisitAllLines(screened, WorkList(s, scan), scan, stable, StepFolder(step, folder));
      assert t.log[|s.log|..] == t.log[|s.log|..|screened.log|] + t.log[|screened.log|..];
      assert forall i :: |s.log| <= i < |screened.log| ==> t.log[i] == screened.log[i];
    }
  }

  // ---------------------------------------------------------------- at most once

  /** From position `base` on, the log says of each published step, once, which folder was published. */
  ghost predicate RecordedFrom(s: State, base: nat)
  {
    && base <= |s.log|
    && (forall step :: step in s.published <==> exists i :: base <= i < |s.log| && PublishedAt(s.log, i, step))
    && (forall i, j, step :: base <= i < j < |s.log| && PublishedAt(s.log, i, step) ==> !PublishedAt(s.log, j, step))
  }

  ghost predicate Recorded(s: State)
  {
    RecordedFrom(s, 0)
  }

  predicate PublishedAt(log: seq<Line>, i: nat, step: nat)
    requires i < |log|
  {
    log[i].Published? && log[i].step == step
  }

  /** Appending a line that publishes nothing, or one that publishes a new step. */
  lemma AppendRecorded(s: State, base: nat, line: Line, published: set<nat>, t: State)
    requires RecordedFrom(s, base) && t.log == s.log + [line] && t.published == published
    requires if line.Published? then line.step !in s.published && published == s.published + {line.step}
             else published == s.published
    ensures RecordedFrom(t, base)
  {
    var n := |s.log|;
    assert forall i, step :: 0 <= i < n ==> PublishedAt(t.log, i, step) == PublishedAt(s.log, i, step);
    forall step
      ensures step in t.published <==> exists i :: base <= i < |t.log| && PublishedAt(t.log, i, step)
    {
      if step in s.published {
        var i :| base <= i < n && PublishedAt(s.log, i, step);
        assert PublishedAt(t.log, i, step);
      } else if line.Published? && step == line.step {
        assert PublishedAt(t.log, n, step);
      }
    }
  }

  lemma VisitRecorded(s: State, base: nat, r: StepFolder, scan: Scan, stable: bool)
    requires RecordedFrom(s, base) && r.step !in s.published
    ensures RecordedFrom(Visit(s, r, scan, stable), base)
  {
    var t := Visit(s, r, scan, stable);
    if t.log != s.log {
      AppendRecorded(s, base, t.log[|s.log|], t.published, t);
    }
  }

  lemma {:induction false} VisitAllRecorded(s: State, base: nat, ready: seq<StepFolder>, scan: Scan, stable: bool)
    requires RecordedFrom(s, base) && DistinctSteps(ready)
    requires forall i :: 0 <= i < |ready| ==> ready[i].step !in s.published
    ensures RecordedFrom(VisitAll(s, ready, scan, stable), base)
  {
    if ready != [] {
      var n := |ready| - 1;
      VisitAllRecorded(s, base, ready[..n], scan, stable);
      VisitAllElsewhere(s, ready[..n], scan, stable, ready[n].step);
      VisitRecorded(VisitAll(s, ready[..n], scan, stable), base, ready[n], scan, stable);
    }
  }

  lemma {:induction false} ScreenRecorded(s: State, base: nat, all: seq<StepFolder>, some: seq<StepFolder>)
    requires RecordedFrom(s, base)
    ensures RecordedFrom(Screen(s, all, some), base)
  {
    if some != [] {
      var before, t := Screen(s, all, some[..|some| - 1]), Screen(s, all, some);
      ScreenRecorded(s, base, all, some[..|some| - 1]);
      if t != before {
        AppendRecorded(before, base, t.log[|before.log|], t.published, t);
      }
    }
  }

  lemma ScanRecorded(s: State, base: nat, scan: Scan, stable: bool)
    requires RecordedFrom(s, base)
    ensures RecordedFrom(AfterScan(s, scan, stable), base)
  {
    if scan.listing.Some? {
      var all := StepFolders(scan.listing.value);
      var ready := WorkList(s, scan);
      ScreenOnlyNotes(s, all, all);
      ScreenRecorded(s, base, all, all);
      WorkListDistinct(s, scan);
      forall i | 0 <= i < |ready|
        ensures ready[i].step !in s.published
      {
        WorkListMembers(s, scan, ready[i]);
      }
      VisitAllRecorded(Screen(s, all, all), base, ready, scan, stable);
    }
  }

  /** One scan after another; the flag says whether the scan waits for a stable look. */
  function AfterAll(s: State, scans: seq<(Scan, bool)>): (t: State)
  {
    if scans == [] then s
    else AfterScan(AfterAll(s, scans[..|scans| - 1]), scans[|scans| - 1].0, scans[|scans| - 1].1)
  }

  /**
   Over every sequence of scans of a changing folder: each step is published at most once, and
   each publication was made by a scan whose readable entries held no second folder of that
   number, with the remembered look if that scan waited for one.
   */
  lemma {:induction false} EveryPublicationJustified(scans: seq<(Scan, bool)>, k: nat)
    requires k < |AfterAll(FRESH, scans).log| && AfterAll(FRESH, scans).log[k].Published?
    ensures Recorded(AfterAll(FRESH, scans))
    ensures var line := AfterAll(FRESH, scans).log[k];
            exists i :: 0 <= i < |scans|
                        && Sole(scans[i].0, line.step, line.folder)
                        && Goes(AfterAll(FRESH, scans[..i]), StepFolder(line.step, line.folder), scans[i].0, scans[i].1)
    decreases |scans|
  {
    AllRecorded(scans);
    var n := |scans| - 1;
    var before, t := AfterAll(FRESH, scans[..n]), AfterAll(FRESH, scans);
    var line := t.log[k];
    PublishesIff(before, scans[n].0, scans[n].1, line.step, line.folder);
    if k < |before.log| {
      EveryPublicationJustified(scans[..n], k);
      var i :| 0 <= i < n && Sole(scans[..n][i].0, line.step, line.folder)
               && Goes(AfterAll(FRESH, scans[..n][..i]), StepFolder(line.step, line.folder), scans[..n][i].0,
                   scans[..n][i].1);
      assert scans[..n][..i] == scans[..i] && scans[..n][i] == scans[i];
    } else {
      assert t.log[|before.log|..][k - |before.log|] == line;
    }
  }

  lemma {:induction false} AllRecorded(scans: seq<(Scan, bool)>)
    ensures Recorded(AfterAll(FRESH, scans))
  {
    if scans != [] {
      AllRecorded(scans[..|scans| - 1]);
      ScanRecorded(AfterAll(FRESH, scans[..|scans| - 1]), 0, scans[|scans| - 1].0, scans[|scans| - 1].1);
    }
  }

  // ---------------------------------------------------------------- the last look

  /** The scan took a look at this step's one folder. */
  ghost predicate Looked(scan: Scan, step: nat, folder: string)
  {
    Sole(scan, step, folder) && scan.look(folder).Some?
  }

  ghost function LookTaken(scan: Scan, step: nat): (r: Option<Fingerprint>)
  {
    if exists folder :: Looked(scan, step, folder) then
      var folder :| Looked(scan, step, folder);
      scan.look(folder)
    else None
  }

  /** The look taken most recently while the step stood alone. */
  ghost function LastLook(scans: seq<Scan>, step: nat): (r: Option<Fingerprint>)
  {
    if scans == [] then None
    else
      var taken := LookTaken(scans[|scans| - 1], step);
      if taken.Some? then taken else LastLook(scans[..|scans| - 1], step)
  }

  function Stable(scans: seq<Scan>): (r: seq<(Scan, bool)>)
  {
    seq(|scans|, i requires 0 <= i < |scans| => (scans[i], true))
  }

  lemma SeenAfterScan(s: State, scan: Scan, step: nat)
    requires step !in AfterScan(s, scan, true).published
    ensures step !in s.published
    ensures SeenAt(AfterScan(s, scan, true), step)
            == if LookTaken(scan, step).Some? then LookTaken(scan, step) else SeenAt(s, step)
  {
    if scan.listing.Some? {
      var all := StepFolders(scan.listing.value);
      var ready, screened := WorkList(s, scan), Screen(s, all, all);
      ScreenOnlyNotes(s, all, all);
      WorkListDistinct(s, scan);
      if i :| 0 <= i < |ready| && ready[i].step == step {
        WorkListMembers(s, scan, ready[i]);
        VisitAllAt(screened, ready, scan, true, i);
        assert scan.look(ready[i].folder).Some? ==> Looked(scan, step, ready[i].folder);
        forall folder | Looked(scan, step, folder)
          ensures folder == ready[i].folder
        {
          SoleUnique(scan, step, folder, ready[i].folder);
        }
      } else {
        VisitAllElsewhere(screened, ready, scan, true, step);
        forall folder
          ensures !Looked(scan, step, folder)
        {
          WorkListMembers(s, scan, StepFolder(step, folder));
        }
      }
    }
  }

  /** While a step is unpublished, what the memory holds for it is the last look. */
  lemma {:induction false} SeenIsLastLook(scans: seq<Scan>, step: nat)
    requires step !in AfterAll(FRESH, Stable(scans)).published
    ensures SeenAt(AfterAll(FRESH, Stable(scans)), step) == LastLook(scans, step)
  {
    if scans != [] {
      var n := |scans| - 1;
      assert Stable(scans)[..n] == Stable(scans[..n]);
      SeenAfterScan(AfterAll(FRESH, Stable(scans[..n])), scans[n], step);
      SeenIsLastLook(scans[..n], step);
    }
  }

  /**
   During execution a folder is published exactly when it stands alone, looks as it did at the last
   look, and publishing works.
   */
  lemma PublishedIffUnchanged(scans: seq<Scan>, scan: Scan, step: nat, folder: string)
    requires step !in AfterAll(FRESH, Stable(scans)).published
    ensures var s := AfterAll(FRESH, Stable(scans));
            && s.log <= AfterScan(s, scan, true).log
            && (Published(step, folder) in AfterScan(s, scan, true).log[|s.log|..] <==>
                && Looked(scan, step, folder)
                && LastLook(scans, step) == scan.look(folder)
                && scan.publishOk(folder))
  {
    PublishesIff(AfterAll(FRESH, Stable(scans)), scan, true, step, folder);
    SeenIsLastLook(scans, step);
  }

  // ---------------------------------------------------------------- where the promises end

  ghost predicate SoleEntry(entries: seq<Entry>, i: nat, step: nat, folder: string)
    requires i < |entries|
  {
    && entries[i] == Folder(folder) && StepOf(folder) == Some(step)
    && forall j :: 0 <= j < |entries| && j != i ==> FolderStep(entries[j]) != Some(step)
  }

  function Contribution(e: Entry, step: nat): (n: nat)
  {
    if FolderStep(e) == Some(step) then 1 else 0
  }

  lemma AppendCount(all: seq<StepFolder>, r: StepFolder, step: nat)
    ensures Count(all + [r], step) == Count(all, step) + if r.step == step then 1 else 0
  {
    assert (all + [r])[..|all|] == all;
  }

  /** The last entry adds what it stands for. */
  lemma LastEntryCounts(entries: seq<Entry>, step: nat)
    requires entries != []
    ensures var n := |entries| - 1;
            Count(StepFolders(entries), step) == Count(StepFolders(entries[..n]), step) + Contribution(entries[n], step)
  {
    var n := |entries| - 1;
    var before := StepFolders(entries[..n]);
    if FolderStep(entries[n]).Some? {
      AppendCount(before, StepFolder(FolderStep(entries[n]).value, entries[n].name), step);
    } else {
      assert before + [] == before;
    }
  }

  lemma {:induction false} NoEntryCount(entries: seq<Entry>, step: nat)
    requires forall j :: 0 <= j < |entries| ==> FolderStep(entries[j]) != Some(step)
    ensures Count(StepFolders(entries), step) == 0
  {
    if entries != [] {
      LastEntryCounts(entries, step);
      NoEntryCount(entries[..|entries| - 1], step);
    }
  }

  /** A single entry of the number makes the folder stand alone, however many entries are unreadable. */
  lemma {:induction false} SoleEntryStandsAlone(entries: seq<Entry>, i: nat, step: nat, folder: string)
    requires i < |entries| && SoleEntry(entries, i, step, folder)
    ensures SoleIn(StepFolders(entries), step, folder)
  {
    var n := |entries| - 1;
    LastEntryCounts(entries, step);
    if i == n {
      NoEntryCount(entries[..n], step);
    } else {
      assert FolderStep(entries[n]) != Some(step);
      SoleEntryStandsAlone(entries[..n], i, step, folder);
    }
  }

  lemma {:induction false} CountedEntry(entries: seq<Entry>, j: nat, step: nat)
    requires j < |entries| && FolderStep(entries[j]) == Some(step)
    ensures Count(StepFolders(entries), step) >= 1
  {
    LastEntryCounts(entries, step);
    if j < |entries| - 1 {
      CountedEntry(entries[..|entries| - 1], j, step);
    }
  }

  lemma {:induction false} CountedTwice(entries: seq<Entry>, i: nat, j: nat, step: nat)
    requires i < j < |entries| && FolderStep(entries[i]) == Some(step) == FolderStep(entries[j])
    ensures Count(StepFolders(entries), step) >= 2
  {
    var n := |entries| - 1;
    LastEntryCounts(entries, step);
    if j < n {
      CountedTwice(entries[..n], i, j, step);
    } else {
      CountedEntry(entries[..n], i, step);
    }
  }

  lemma {:induction false} CountedComesFrom(entries: seq<Entry>, step: nat, folder: string) returns (i: nat)
    requires StepFolder(step, folder) in StepFolders(entries)
    ensures i < |entries| && entries[i] == Folder(folder) && StepOf(folder) == Some(step)
  {
    var n := |entries| - 1;
    if FolderStep(entries[n]) == Some(step) && entries[n] == Folder(folder) {
      i := n;
    } else {
      i := CountedComesFrom(entries[..n], step, folder);
    }
  }

  /** What a directory really holds, and which of its entries can be read just now. */
  datatype RealEntry = RealEntry(name: string, folder: bool, readable: bool)

  function Seen(e: RealEntry): (r: Entry)
  {
    if !e.readable then Unreadable else if e.folder then Folder(e.name) else NotFolder(e.name)
  }

  function Listing(dir: seq<RealEntry>): (r: seq<Entry>)
  {
    seq(|dir|, i requires 0 <= i < |dir| => Seen(dir[i]))
  }

  /** The entry is a folder of this number. */
  predicate Carries(e: RealEntry, step: nat)
  {
    e.folder && StepOf(e.name) == Some(step)
  }

  /** Entry `i` is this folder and can be read; every other folder of its number cannot. */
  ghost predicate OnlyReadable(dir: seq<RealEntry>, i: nat, step: nat, folder: string)
    requires i < |dir|
  {
    && dir[i].name == folder && dir[i].readable && Carries(dir[i], step)
    && forall j :: 0 <= j < |dir| && j != i && Carries(dir[j], step) ==> !dir[j].readable
  }

  lemma SoleIffOnlyReadable(dir: seq<RealEntry>, step: nat, folder: string)
    ensures SoleIn(StepFolders(Listing(dir)), step, folder) <==>
            exists i :: 0 <= i < |dir| && OnlyReadable(dir, i, step, folder)
  {
    var entries := Listing(dir);
    if i :| 0 <= i < |dir| && OnlyReadable(dir, i, step, folder) {
      assert SoleEntry(entries, i, step, folder);
      SoleEntryStandsAlone(entries, i, step, folder);
    }
    if SoleIn(StepFolders(entries), step, folder) {
      var i := CountedComesFrom(entries, step, folder);
      forall j | 0 <= j < |dir| && j != i && Carries(dir[j], step)
        ensures !dir[j].readable
      {
        if dir[j].readable {
          CountedTwice(entries, if i < j then i else j, if i < j then j else i, step);
        }
      }
      assert OnlyReadable(dir, i, step, folder);
    }
  }

  /**
   In terms of the directory itself, for every memory and every scan: a folder is published
   exactly when its step is not yet, the memory allows it, and it is readable while every other
   folder of its number is not. So two folders of one number block each other exactly when both
   can be read.
   */
  lemma ConflictNeedsReadableEntries(s: State, dir: seq<RealEntry>, scan: Scan, stable: bool, step: nat, folder: string)
    requires scan.listing == Some(Listing(dir))
    ensures var t := AfterScan(s, scan, stable);
            && s.log <= t.log
            && (Published(step, folder) in t.log[|s.log|..] <==>
                && step !in s.published
                && Goes(s, StepFolder(step, folder), scan, stable)
                && exists i :: 0 <= i < |dir| && OnlyReadable(dir, i, step, folder))
  {
    PublishesIff(s, scan, stable, step, folder);
    SoleIffOnlyReadable(dir, step, folder);
  }
}
