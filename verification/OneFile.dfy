/** One large file that lost blocks on the way. */
module OneFile {
  import opened Bytes
  import opened Records
  import opened Walk
  import opened OperSave
  import opened OperRestore
  import opened Damage
  import opened Placement
  import opened SavedPuts
  import opened SaveRestore
  import opened RoundTrip

  /** Only unit k is damaged: of its blocks, these arrive. */
  function OneHarm(n: nat, k: nat, received: seq<Option<bytes>>): seq<Harm>
    requires k < n
  {
    NoHarm(n)[k := Harm([], Blocks(received))]
  }

  predicate BlocksMissing(c: Cfg, us: seq<Unit>, k: nat, received: seq<Option<bytes>>) {
    && CfgOk(c) && UnitsOk(us) && (forall i :: 0 <= i < |us| ==> DigestsOk(c, us[i]))
    && k < |us| && us[k].Large? && ReceivedOk(us[k].content, 0, c.blksize, received) && Whole(received).None?
  }

  lemma {:induction false} OneHarmed(c: Cfg, us: seq<Unit>, k: nat, received: seq<Option<bytes>>)
    requires BlocksMissing(c, us, k, received)
    ensures var hs := OneHarm(|us|, k, received);
            && StreamOk(c, us, hs) && AllDetected(c, us, hs)
            && FilesLost(Puts(us), Fates(c, us, hs), {us[k].head.path})
  {
    hide UnitOk, DigestsOk, Detected, ReceivedOk, Whole, KindOk, UnitPuts, UnitFates, FilesLost, HarmsOk;
    var n := |us| - 1;
    if k == n {
      NoHarmIsOk(c, us[..n]);
      KeptLost(Puts(us[..n]), Fates(c, us[..n], NoHarm(n)));
      BrokenUnit(c, us[n], received);
      OneMoreUnit(c, us, NoHarm(n), {}, Blocks(received), {us[n].head.path});
      assert NoHarm(n) + [Harm([], Blocks(received))] == OneHarm(|us|, k, received);
      assert {} + {us[n].head.path} == {us[n].head.path};
    } else {
      OneHarmed(c, us[..n], k, received);
      IntactUnit(c, us[n]);
      OneMoreUnit(c, us, OneHarm(n, k, received), {us[k].head.path}, Intact, {});
      assert OneHarm(n, k, received) + [Harm([], Intact)] == OneHarm(|us|, k, received);
      assert {us[k].head.path} + {} == {us[k].head.path};
    }
  }

  /** The last unit adds its own fates. */
  lemma {:induction false} OneMoreUnit(c: Cfg, us: seq<Unit>, hs: seq<Harm>, broken: set<Path>,
                                       kind: Kind, more: set<Path>)
    requires CfgOk(c) && UnitsOk(us) && |us| == |hs| + 1 && DigestsOk(c, us[|hs|]) && KindOk(c, us[|hs|], kind)
    requires StreamOk(c, us[..|hs|], hs) && AllDetected(c, us[..|hs|], hs) && Detected(c, us[|hs|], kind)
    requires FilesLost(Puts(us[..|hs|]), Fates(c, us[..|hs|], hs), broken)
    requires FilesLost(UnitPuts(us[|hs|]), UnitFates(c, us[|hs|], kind), more)
    ensures var all := hs + [Harm([], kind)];
            && StreamOk(c, us, all) && AllDetected(c, us, all)
            && FilesLost(Puts(us), Fates(c, us, all), broken + more)
  {
    hide UnitOk, DigestsOk, Detected, KindOk, UnitPuts, UnitFates, FilesLost;
    var n, all := |hs|, hs + [Harm([], kind)];
    assert all[..n] == hs && all[n] == Harm([], kind);
    forall i | 0 <= i < n
      ensures HarmOk(c, us[i], all[i]) && DigestsOk(c, us[i]) && Detected(c, us[i], all[i].kind)
    {
      assert us[..n][i] == us[i] && all[i] == hs[i];
    }
    LostConcat(Puts(us[..n]), Fates(c, us[..n], hs), broken, UnitPuts(us[n]), UnitFates(c, us[n], kind), more);
  }

  /** Files under these paths are broken, and nothing else has happened. */
  predicate FilesLost(puts: seq<Op>, fates: seq<Fate>, broken: set<Path>) {
    && |puts| == |fates| && PathsWith(puts, fates, Broken) == broken
    && forall k :: 0 <= k < |fates| ==> fates[k] == Kept || fates[k] == Broken
  }

  lemma {:induction false} KeptLost(puts: seq<Op>, fates: seq<Fate>)
    requires |puts| == |fates| && forall f :: f in fates ==> f == Kept
    ensures FilesLost(puts, fates, {})
  {
    assert forall k :: 0 <= k < |fates| ==> fates[k] in fates;
  }

  lemma {:induction false} LostConcat(puts: seq<Op>, fates: seq<Fate>, broken: set<Path>,
                                      morePuts: seq<Op>, moreFates: seq<Fate>, moreBroken: set<Path>)
    requires FilesLost(puts, fates, broken) && FilesLost(morePuts, moreFates, moreBroken)
    ensures FilesLost(puts + morePuts, fates + moreFates, broken + moreBroken)
  {
    var p, f := puts + morePuts, fates + moreFates;
    assert forall k :: 0 <= k < |puts| ==> p[k] == puts[k] && f[k] == fates[k];
    assert forall k :: 0 <= k < |morePuts| ==> p[|puts| + k] == morePuts[k] && f[|puts| + k] == moreFates[k];
    assert forall k :: |puts| <= k < |p| ==> p[k] == morePuts[k - |puts|] && f[k] == moreFates[k - |puts|];
  }

  lemma {:induction false} BrokenUnit(c: Cfg, u: Unit, received: seq<Option<bytes>>)
    requires CfgOk(c) && UnitOk(u) && u.Large?
    requires ReceivedOk(u.content, 0, c.blksize, received) && Whole(received).None?
    ensures KindOk(c, u, Blocks(received)) && Detected(c, u, Blocks(received))
    ensures FilesLost(UnitPuts(u), UnitFates(c, u, Blocks(received)), {u.head.path})
  {
    var puts, fates := UnitPuts(u), UnitFates(c, u, Blocks(received));
    assert puts[0].path == u.head.path && fates[0] == Broken;
  }

  lemma {:induction false} IntactUnit(c: Cfg, u: Unit)
    requires CfgOk(c) && UnitOk(u)
    ensures KindOk(c, u, Intact) && Detected(c, u, Intact) && FilesLost(UnitPuts(u), UnitFates(c, u, Intact), {})
  {
    KeptLost(UnitPuts(u), UnitFates(c, u, Intact));
  }

  /** The loss of one large file. */
  function LossOfFile(path: Path): Loss {
    Loss(NoneExcluded, {}, {path}, {})
  }

  lemma {:induction false} OneIsLost(c: Cfg, us: seq<Unit>, hs: seq<Harm>, path: Path)
    requires StreamOk(c, us, hs) && FilesLost(Puts(us), Fates(c, us, hs), {path})
    ensures LossOf(c, NoneExcluded, us, hs) == LossOfFile(path)
    ensures DamagedFiles(LossOfFile(path)) == {path}
  {
    hide Fates, Puts, StreamOk;
  }

  /** Losing any non-empty set of blocks of one large file - perhaps with other blocks altered as well -
      costs that file, and the hard links to it, and nothing else; it is counted exactly once. */
  lemma {:induction false} OneFileDropped(c: Cfg, vs: seq<Visit>, k: nat, received: seq<Option<bytes>>)
    requires CfgOk(c) && VisitsOk(vs) && DistinctPaths(vs) && TreeShaped(vs) && Snapshot(vs) && KeysOk(vs)
    requires BlocksMissing(c, Saved(c, vs), k, received)
    ensures var hs, l := OneHarm(|Saved(c, vs)|, k, received), LossOfFile(Saved(c, vs)[k].head.path);
            && DamageOk(c, vs, hs)
            && var r := Restore(c, vs, NoneExcluded, hs);
               && r.Continue? && r.ex.stats.fileErrors == 1 && r.ex.stats.linkErrors == |LostLinks(vs, l)|
               && Faithful(vs, l, r.ex.fs)
  {
    hide Saved, Snapshot, KeysOk, DistinctPaths, TreeShaped, VisitsOk, Faithful, RestoredAs, StreamOk, AllDetected;
    hide Restore, LossOf, KeyAttrs, AllJunkErrors, FilesLost, LostLinks, DamagedFiles;
    OneHarmed(c, Saved(c, vs), k, received);
    var hs := OneHarm(|Saved(c, vs)|, k, received);
    OneIsLost(c, Saved(c, vs), hs, Saved(c, vs)[k].head.path);
    DamageIsContained(c, vs, NoneExcluded, hs);
    DamagedTreeFaithful(c, vs, NoneExcluded, hs);
  }
}
