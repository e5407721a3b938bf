/**
 Where the report outbox may lie. Everything strictly inside the checkpoint root or the
 workload-run root can be deleted at any time (start-up clean-up, work clean-up), so a report
 path is walked component by component before it is accepted. The file system is a finite
 tree with symbolic links.
 */
module OutboxPath {
  import opened Common

  datatype Component = Up | Normal(name: string)

  /** A real location: the names from the root directory down. */
  type Place = seq<string>

  type Path = seq<Component>

  datatype Entry = Directory | File | Link(absolute: bool, target: Path)

  type FileSystem = map<Place, Entry>

  /** How many links one resolution may follow. */
  const LINK_LIMIT: nat := 40

  function Parent(p: Place): (r: Place)
  {
    if p == [] then [] else p[..|p| - 1]
  }

  /** Resolution as the kernel does it: links are followed and `..` is the parent of the real location. */
  function Resolve(fs: FileSystem, at: Place, rest: Path, links: nat): (r: Option<Place>)
    decreases links, |rest|
  {
    if at !in fs then None
    else if rest == [] then Some(at)
    else if !fs[at].Directory? then None
    else
      match rest[0]
      case Up => Resolve(fs, Parent(at), rest[1..], links)
      case Normal(name) =>
        var child := at + [name];
        if child !in fs then None
        else
          match fs[child]
          case Link(absolute, target) =>
            if links == 0 then None else Resolve(fs, if absolute then [] else at, target + rest[1..], links - 1)
          case _ => Resolve(fs, child, rest[1..], links)
  }

  function Canonicalize(fs: FileSystem, path: Path): (r: Option<Place>)
  {
    Resolve(fs, [], path, LINK_LIMIT)
  }

  /** The two roots whose contents get deleted, at their real locations. */
  datatype Roots = Roots(checkpoints: Place, runs: Place)

  /** At a root or inside it. */
  predicate Guarded(roots: Roots, p: Place)
  {
    roots.checkpoints <= p || roots.runs <= p
  }

  /** What a clean-up may delete. */
  predicate Deletable(roots: Roots, p: Place)
  {
    roots.checkpoints < p || roots.runs < p
  }

  // ---------------------------------------------------------------- the walk

  datatype Refusal = Unresolved | InsideRoot | PassesThroughRoot | HasLink

  /** The checks made for component `i`, if it is a name. */
  ghost predicate WalkStep(fs: FileSystem, roots: Roots, path: Path, i: nat)
    requires i < |path|
  {
    path[i].Normal? ==>
      var prefix := Canonicalize(fs, path[..i]);
      && prefix.Some?
      && !Guarded(roots, prefix.value)
      && prefix.value + [path[i].name] in fs
      && !fs[prefix.value + [path[i].name]].Link?
  }

  ghost predicate Accepts(fs: FileSystem, roots: Roots, outbox: Path)
  {
    && Canonicalize(fs, outbox).Some?
    && (forall i: nat :: i < |outbox| ==> WalkStep(fs, roots, outbox, i))
    && !Guarded(roots, Canonicalize(fs, outbox).value)
  }

  /** What is wrong with component `i`. */
  ghost predicate Fault(fs: FileSystem, roots: Roots, path: Path, i: nat, why: Refusal)
    requires i < |path|
  {
    path[i].Normal? &&
    var prefix := Canonicalize(fs, path[..i]);
    match why
    case Unresolved => prefix.None? || prefix.value + [path[i].name] !in fs
    case PassesThroughRoot => prefix.Some? && Guarded(roots, prefix.value)
    case HasLink => prefix.Some? && prefix.value + [path[i].name] in fs && fs[prefix.value + [path[i].name]].Link?
    case InsideRoot => false
  }

  /** The reason given for a refusal is true. */
  ghost predicate Explained(fs: FileSystem, outbox: Path, checkpointRoot: Path, runRoot: Path, why: Refusal)
  {
    var end, root, runs := Canonicalize(fs, outbox), Canonicalize(fs, checkpointRoot), Canonicalize(fs, runRoot);
    if end.None? || root.None? || runs.None? then why == Unresolved
    else
      var roots := Roots(root.value, runs.value);
      || (why == InsideRoot && Guarded(roots, end.value))
      || exists i: nat :: i < |outbox| && Fault(fs, roots, outbox, i, why)
  }

  /** `symlink_metadata`: the last component is not followed. */
  function LinkMetadata(fs: FileSystem, walked: Path, name: string): (r: Option<Entry>)
  {
    match Canonicalize(fs, walked)
    case None => None
    case Some(p) => if p + [name] in fs then Some(fs[p + [name]]) else None
  }

  /** `report_outbox_dir`, once the three directories exist. */
  method ReportOutboxDir(fs: FileSystem, outbox: Path, checkpointRoot: Path, runRoot: Path)
    returns (r: Result<Path, Refusal>)
    ensures r.Ok? ==> r.value == outbox
    ensures r.Ok? <==>
              && Canonicalize(fs, checkpointRoot).Some?
              && Canonicalize(fs, runRoot).Some?
              && Accepts(fs, Roots(Canonicalize(fs, checkpointRoot).value, Canonicalize(fs, runRoot).value), outbox)
    ensures r.Err? ==> Explained(fs, outbox, checkpointRoot, runRoot, r.error)
  {
    var realOutbox := Canonicalize(fs, outbox);
    if realOutbox.None? { return Err(Unresolved); }
    var realRoot := Canonicalize(fs, checkpointRoot);
    if realRoot.None? { return Err(Unresolved); }
    var realRunRoot := Canonicalize(fs, runRoot);
    if realRunRoot.None? { return Err(Unresolved); }
    var roots := Roots(realRoot.value, realRunRoot.value);
    var walked: Path := [];
    for i := 0 to |outbox|
      invariant walked == outbox[..i]
      invariant forall k: nat :: k < i ==> WalkStep(fs, roots, outbox, k)
    {
      if outbox[i].Normal? {
        var realPrefix := Canonicalize(fs, walked);
        if realPrefix.None? {
          assert !WalkStep(fs, roots, outbox, i) && Fault(fs, roots, outbox, i, Unresolved);
          return Err(Unresolved);
        }
        if Guarded(roots, realPrefix.value) {
          assert !WalkStep(fs, roots, outbox, i) && Fault(fs, roots, outbox, i, PassesThroughRoot);
          return Err(PassesThroughRoot);
        }
        var entry := LinkMetadata(fs, walked, outbox[i].name);
        if entry.None? {
          assert !WalkStep(fs, roots, outbox, i) && Fault(fs, roots, outbox, i, Unresolved);
          return Err(Unresolved);
        }
        if entry.value.Link? {
          assert !WalkStep(fs, roots, outbox, i) && Fault(fs, roots, outbox, i, HasLink);
          return Err(HasLink);
        }
      }
      walked := walked + [outbox[i]];
    }
    if Guarded(roots, realOutbox.value) { return Err(InsideRoot); }
    return Ok(outbox);
  }

  // ---------------------------------------------------------------- resolution, one component at a time

  /** One component from a resolved place, when it is not a link. */
  function Plain(fs: FileSystem, p: Place, c: Component): (r: Option<Place>)
  {
    if p !in fs || !fs[p].Directory? then None
    else
      var next := match c case Up => Parent(p) case Normal(name) => p + [name];
      if next in fs then Some(next) else None
  }

  predicate NotLink(fs: FileSystem, p: Place, c: Component)
  {
    c.Normal? && p + [c.name] in fs ==> !fs[p + [c.name]].Link?
  }

  lemma {:induction false} Extend(fs: FileSystem, at: Place, rest: Path, c: Component, links: nat)
    requires Resolve(fs, at, rest, links).Some? ==> NotLink(fs, Resolve(fs, at, rest, links).value, c)
    ensures Resolve(fs, at, rest + [c], links)
            == match Resolve(fs, at, rest, links)
               case None => None
               case Some(p) => Plain(fs, p, c)
    decreases links, |rest|
  {
    if at !in fs {
    } else if rest == [] {
      assert (rest + [c])[0] == c && (rest + [c])[1..] == [];
    } else if fs[at].Directory? {
      assert (rest + [c])[0] == rest[0] && (rest + [c])[1..] == rest[1..] + [c];
      match rest[0] {
        case Up => Extend(fs, Parent(at), rest[1..], c, links);
        case Normal(name) =>
          var child := at + [name];
          if child in fs {
            match fs[child] {
              case Link(absolute, target) =>
                if links > 0 {
                  assert target + (rest[1..] + [c]) == (target + rest[1..]) + [c];
                  Extend(fs, if absolute then [] else at, target + rest[1..], c, links - 1);
                }
              case _ => Extend(fs, child, rest[1..], c, links);
            }
          }
      }
    }
  }

  /** The walk meets no link: every name it appends, at the place reached so far, is not one. */
  ghost predicate LinkFree(fs: FileSystem, path: Path)
  {
    forall i: nat :: i < |path| ==> LinkFreeAt(fs, path, i)
  }

  ghost predicate LinkFreeAt(fs: FileSystem, path: Path, i: nat)
    requires i < |path|
  {
    Canonicalize(fs, path[..i]).Some? ==> NotLink(fs, Canonicalize(fs, path[..i]).value, path[i])
  }

  lemma Advance(fs: FileSystem, path: Path, i: nat)
    requires i < |path| && LinkFreeAt(fs, path, i)
    ensures Canonicalize(fs, path[..i + 1])
            == match Canonicalize(fs, path[..i])
               case None => None
               case Some(p) => Plain(fs, p, path[i])
  {
    assert path[..i + 1] == path[..i] + [path[i]];
    Extend(fs, [], path[..i], path[i], LINK_LIMIT);
  }

  lemma {:induction false} PrefixResolves(fs: FileSystem, path: Path, i: nat)
    requires i <= |path| && LinkFree(fs, path) && Canonicalize(fs, path).Some?
    ensures Canonicalize(fs, path[..i]).Some?
    decreases |path| - i
  {
    if i < |path| {
      PrefixResolves(fs, path, i + 1);
      assert LinkFreeAt(fs, path, i);
      Advance(fs, path, i);
    } else {
      assert path[..i] == path;
    }
  }

  // ---------------------------------------------------------------- deletions

  function Delete(fs: FileSystem, gone: set<Place>): (r: FileSystem)
  {
    fs - gone
  }

  lemma ChildDeletable(roots: Roots, p: Place, name: string)
    ensures Deletable(roots, p + [name]) <==> Guarded(roots, p)
  {
    ChildInside(roots.checkpoints, p, name);
    ChildInside(roots.runs, p, name);
  }

  lemma ChildInside(root: Place, p: Place, name: string)
    ensures root < p + [name] <==> root <= p
  {
    if root < p + [name] {
      assert (p + [name])[..|root|] == p[..|root|];
    }
  }

  lemma ParentStays(roots: Roots, p: Place)
    requires !Deletable(roots, p)
    ensures !Deletable(roots, Parent(p))
  {
    if p != [] {
      assert Parent(p) + [p[|p| - 1]] == p;
      ChildDeletable(roots, Parent(p), p[|p| - 1]);
    }
  }

  /** No deletion inside the two roots changes where the path leads or removes a report put there. */
  ghost predicate Immune(fs: FileSystem, roots: Roots, outbox: Path)
  {
    && Canonicalize(fs, outbox).Some?
    && (forall gone: set<Place> :: (forall p :: p in gone ==> Deletable(roots, p))
                                   ==> Canonicalize(Delete(fs, gone), outbox) == Canonicalize(fs, outbox))
    && (forall file: string :: !Deletable(roots, Canonicalize(fs, outbox).value + [file]))
  }

  lemma AcceptedIsLinkFree(fs: FileSystem, roots: Roots, outbox: Path)
    requires Accepts(fs, roots, outbox)
    ensures LinkFree(fs, outbox)
  {
    forall i: nat | i < |outbox|
      ensures LinkFreeAt(fs, outbox, i)
    {
      assert WalkStep(fs, roots, outbox, i);
    }
  }

  lemma {:induction false} DeletionUnseen(fs: FileSystem, roots: Roots, outbox: Path, gone: set<Place>, i: nat)
    requires Accepts(fs, roots, outbox) && i <= |outbox|
    requires forall p :: p in gone ==> Deletable(roots, p)
    requires [] in fs
    ensures Canonicalize(fs, outbox[..i]).Some? && !Deletable(roots, Canonicalize(fs, outbox[..i]).value)
    ensures Canonicalize(Delete(fs, gone), outbox[..i]) == Canonicalize(fs, outbox[..i])
  {
    AcceptedIsLinkFree(fs, roots, outbox);
    PrefixResolves(fs, outbox, i);
    if i > 0 {
      DeletionUnseen(fs, roots, outbox, gone, i - 1);
      var p := Canonicalize(fs, outbox[..i - 1]).value;
      assert LinkFreeAt(fs, outbox, i - 1);
      assert LinkFreeAt(Delete(fs, gone), outbox, i - 1);
      Advance(fs, outbox, i - 1);
      Advance(Delete(fs, gone), outbox, i - 1);
      ParentStays(roots, p);
      if outbox[i - 1].Normal? {
        assert WalkStep(fs, roots, outbox, i - 1);
        ChildDeletable(roots, p, outbox[i - 1].name);
      }
    }
  }

  /** What the walk accepts is immune, even when `..` leads through a root. */
  lemma AcceptedIsImmune(fs: FileSystem, roots: Roots, outbox: Path)
    requires Accepts(fs, roots, outbox) && [] in fs
    ensures Immune(fs, roots, outbox)
  {
    assert outbox[..|outbox|] == outbox;
    forall gone: set<Place> | forall p :: p in gone ==> Deletable(roots, p)
      ensures Canonicalize(Delete(fs, gone), outbox) == Canonicalize(fs, outbox)
    {
      DeletionUnseen(fs, roots, outbox, gone, |outbox|);
    }
    forall file: string
      ensures !Deletable(roots, Canonicalize(fs, outbox).value + [file])
    {
      ChildDeletable(roots, Canonicalize(fs, outbox).value, file);
    }
  }

  /** Wherever a link-free path still leads after deletions, it led there before. */
  lemma {:induction false} SurvivorAgrees(fs: FileSystem, path: Path, gone: set<Place>, i: nat)
    requires i <= |path| && LinkFree(fs, path)
    ensures Canonicalize(Delete(fs, gone), path[..i]).Some?
            ==> Canonicalize(fs, path[..i]) == Canonicalize(Delete(fs, gone), path[..i])
    ensures i < |path| ==> LinkFreeAt(Delete(fs, gone), path, i)
  {
    if i > 0 {
      SurvivorAgrees(fs, path, gone, i - 1);
      assert LinkFreeAt(fs, path, i - 1);
      Advance(fs, path, i - 1);
      Advance(Delete(fs, gone), path, i - 1);
    }
    if i < |path| {
      assert LinkFreeAt(fs, path, i);
    }
  }

  ghost function Everything(fs: FileSystem, roots: Roots): (r: set<Place>)
  {
    set p | p in fs && Deletable(roots, p)
  }

  /** A path that appends a name at or below a root does not survive the deletion of the roots' contents. */
  lemma PassingThroughIsLost(fs: FileSystem, roots: Roots, outbox: Path, i: nat)
    requires LinkFree(fs, outbox) && Canonicalize(fs, outbox).Some?
    requires i < |outbox| && outbox[i].Normal?
    requires Canonicalize(fs, outbox[..i]).Some? && Guarded(roots, Canonicalize(fs, outbox[..i]).value)
    ensures Canonicalize(Delete(fs, Everything(fs, roots)), outbox).None?
  {
    var left := Delete(fs, Everything(fs, roots));
    forall k: nat | k < |outbox|
      ensures LinkFreeAt(left, outbox, k)
    {
      SurvivorAgrees(fs, outbox, Everything(fs, roots), k);
    }
    if Canonicalize(left, outbox).Some? {
      PrefixResolves(left, outbox, i + 1);
      Advance(left, outbox, i);
      SurvivorAgrees(fs, outbox, Everything(fs, roots), i);
      ChildDeletable(roots, Canonicalize(fs, outbox[..i]).value, outbox[i].name);
      assert false;
    }
  }

  /** A path free of links is accepted exactly when it is immune. */
  lemma AcceptedIffImmune(fs: FileSystem, roots: Roots, outbox: Path)
    requires [] in fs && LinkFree(fs, outbox)
    ensures Accepts(fs, roots, outbox) <==> Immune(fs, roots, outbox)
  {
    if Accepts(fs, roots, outbox) {
      AcceptedIsImmune(fs, roots, outbox);
    }
    if Immune(fs, roots, outbox) {
      ImmuneIsAccepted(fs, roots, outbox);
    }
  }

  lemma ImmuneIsAccepted(fs: FileSystem, roots: Roots, outbox: Path)
    requires LinkFree(fs, outbox) && Immune(fs, roots, outbox)
    ensures Accepts(fs, roots, outbox)
  {
    forall i: nat | i < |outbox|
      ensures WalkStep(fs, roots, outbox, i)
    {
      if outbox[i].Normal? {
        PrefixResolves(fs, outbox, i);
        PrefixResolves(fs, outbox, i + 1);
        assert LinkFreeAt(fs, outbox, i);
        Advance(fs, outbox, i);
        if Guarded(roots, Canonicalize(fs, outbox[..i]).value) {
          PassingThroughIsLost(fs, roots, outbox, i);
          assert false;
        }
      }
    }
    ChildDeletable(roots, Canonicalize(fs, outbox).value, "report");
  }

  /** A path with a link among its names is refused wherever the link leads. */
  lemma LinksAreRefused(fs: FileSystem, roots: Roots, outbox: Path)
    requires !LinkFree(fs, outbox)
    ensures !Accepts(fs, roots, outbox)
  {
    if Accepts(fs, roots, outbox) {
      AcceptedIsLinkFree(fs, roots, outbox);
    }
  }

  // ---------------------------------------------------------------- two examples

  const EXAMPLE_ROOTS: Roots := Roots(["r"], ["w"])

  /** `/alias` leads to `/w/job`, which leads to `/reports`. */
  const EXAMPLE_LINKS: FileSystem := map[
    [] := Directory, ["r"] := Directory, ["w"] := Directory, ["reports"] := Directory,
    ["w", "job"] := Link(true, [Normal("reports")]),
    ["alias"] := Link(true, [Normal("w"), Normal("job")])]

  lemma Step(fs: FileSystem, at: Place, c: Component, rest: Path, links: nat)
    requires at in fs && fs[at].Directory?
    ensures c.Up? ==> Resolve(fs, at, [c] + rest, links) == Resolve(fs, Parent(at), rest, links)
    ensures c.Normal? && at + [c.name] in fs && !fs[at + [c.name]].Link?
            ==> Resolve(fs, at, [c] + rest, links) == Resolve(fs, at + [c.name], rest, links)
    ensures c.Normal? && at + [c.name] in fs && fs[at + [c.name]].Link? && links > 0
            ==> Resolve(fs, at, [c] + rest, links)
                == Resolve(fs, if fs[at + [c.name]].absolute then [] else at, fs[at + [c.name]].target + rest,
                    links - 1)
  {
    assert ([c] + rest)[0] == c && ([c] + rest)[1..] == rest;
  }

  /** Going up through a root itself, as in `/r/../out`, is accepted. */
  lemma UpThroughRootAccepted(out: string)
    requires out != "r" && out != "w"
    ensures var fs: FileSystem := map[[] := Directory, ["r"] := Directory, ["w"] := Directory, [out] := Directory];
            && Canonicalize(fs, [Normal("r")]) == Some(EXAMPLE_ROOTS.checkpoints)
            && Canonicalize(fs, [Normal("w")]) == Some(EXAMPLE_ROOTS.runs)
            && Accepts(fs, EXAMPLE_ROOTS, [Normal("r"), Up, Normal(out)])
  {
    var fs: FileSystem := map[[] := Directory, ["r"] := Directory, ["w"] := Directory, [out] := Directory];
    var path := [Normal("r"), Up, Normal(out)];
    assert [] + ["r"] == ["r"] && [] + ["w"] == ["w"] && [] + [out] == [out];
    Step(fs, [], Normal("r"), [], LINK_LIMIT);
    Step(fs, [], Normal("w"), [], LINK_LIMIT);
    assert [Normal("r")] + [] == [Normal("r")] && [Normal("w")] + [] == [Normal("w")];
    assert Canonicalize(fs, path[..0]) == Some([]);
    assert LinkFreeAt(fs, path, 0);
    Advance(fs, path, 0);
    assert LinkFreeAt(fs, path, 1);
    Advance(fs, path, 1);
    assert LinkFreeAt(fs, path, 2);
    Advance(fs, path, 2);
    assert path[..3] == path;
    assert ["r"][0] != out && ["w"][0] != out;
    forall i: nat | i < |path|
      ensures WalkStep(fs, EXAMPLE_ROOTS, path, i)
    {
      if i == 0 {
        assert Canonicalize(fs, path[..i]) == Some([]);
      } else if i == 2 {
        assert Canonicalize(fs, path[..i]) == Some([]);
      }
    }
  }

  lemma AliasLeadsOut(fs: FileSystem)
    requires fs == EXAMPLE_LINKS
    ensures Canonicalize(fs, [Normal("alias")]) == Some(["reports"])
  {
    var alias, w, job, reports := Normal("alias"), Normal("w"), Normal("job"), Normal("reports");
    assert [] + ["alias"] == ["alias"] && [] + ["w"] == ["w"] && [] + ["reports"] == ["reports"];
    assert ["w"] + ["job"] == ["w", "job"];
    Step(fs, [], alias, [], 40);
    assert [alias] + [] == [alias] && [w, job] + [] == [w] + [job] && [job] + [] == [job];
    Step(fs, [], w, [job], 39);
    Step(fs, ["w"], job, [], 39);
    assert [reports] + [] == [reports];
    Step(fs, [], reports, [], 38);
  }

  lemma AliasLost(fs: FileSystem)
    requires fs == Delete(EXAMPLE_LINKS, {["w", "job"]})
    ensures Canonicalize(fs, [Normal("alias")]) == None
  {
    var alias, w, job := Normal("alias"), Normal("w"), Normal("job");
    assert [] + ["alias"] == ["alias"] && [] + ["w"] == ["w"] && ["w"] + ["job"] == ["w", "job"];
    Step(fs, [], alias, [], 40);
    assert [alias] + [] == [alias] && [w, job] + [] == [w] + [job];
    Step(fs, [], w, [job], 39);
  }

  /**
   Why links are refused outright: the real place of `/alias` and each prefix of it lie
   outside the roots, yet one deletion inside a root breaks the path.
   */
  lemma LinkWouldNotBeImmune()
    ensures Canonicalize(EXAMPLE_LINKS, [Normal("alias")]) == Some(["reports"])
    ensures !Guarded(EXAMPLE_ROOTS, ["reports"]) && !Guarded(EXAMPLE_ROOTS, [])
    ensures !Immune(EXAMPLE_LINKS, EXAMPLE_ROOTS, [Normal("alias")])
  {
    AliasLeadsOut(EXAMPLE_LINKS);
    var gone := {["w", "job"]};
    AliasLost(Delete(EXAMPLE_LINKS, gone));
    assert ["w"] < ["w", "job"];
    assert ["reports"][0] != "r" && ["reports"][0] != "w";
  }
}
