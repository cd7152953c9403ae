/** Where the migration takes each entry, decided from the directory before it. */
module Whereabouts {
  import opened Text

  import opened Directory
  import opened Migration

  /** The legacy child a name below the legacy root is or lies below. */
  function ChildAbove(d: Dn, legacy: Dn): (c: Dn)
    requires |d| > |legacy|
    ensures Under(d, c) && |c| == |legacy| + 1
  {
    d[|d| - |legacy| - 1..]
  }

  ghost predicate Leaves(goers: set<Dn>, legacy: Dn, d: Dn) { |d| > |legacy| && ChildAbove(d, legacy) in goers }

  /** Where the entry named `d` is once the children in `goers` have gone; nowhere if it was a duplicate. */
  ghost function Where(m: Tree, goers: set<Dn>, legacy: Dn, root: Dn, d: Dn): Option<Dn>
  {
    if !Leaves(goers, legacy, d) then Some(d) else
    var c := ChildAbove(d, legacy);
    if Target(c, root) in m then None else Some(Rebase(d, c, Target(c, root)))
  }

  /** The children that go: the server does not refuse, and they can go from the directory as it was. */
  ghost function Goers(m: Tree, children: seq<Dn>, root: Dn, refused: seq<bool>): set<Dn>
    requires |refused| == |children| && Proper(children)
  {
    set i | 0 <= i < |children| && !refused[i] && CanGo(m, children[i], root) :: children[i]
  }

  ghost predicate AllCanGo(m: Tree, goers: set<Dn>, legacy: Dn, root: Dn)
  {
    forall c | c in goers :: IsChild(c, legacy) && CanGo(m, c, root)
  }

  lemma BelowAChild(d: Dn, child: Dn, legacy: Dn)
    requires IsChild(child, legacy)
    ensures Under(d, child) <==> |d| > |legacy| && ChildAbove(d, legacy) == child
  {
  }

  /** A vacant target is not above the legacy root, nor is it above or below a child of the legacy root. */
  lemma VacantTargetIsApart(m: Tree, name: Rdn, child: Dn, legacy: Dn, root: Dn, d: Dn)
    requires legacy in m && legacy != root && IsChild(child, legacy) && !Under(root, child)
    requires Vacant(m, [name] + root) && Under(d, [name] + root)
    ensures !Under(d, child)
  {
    if Under(d, child) { TargetApart(d, child, name, legacy, root); }
  }

  /** A moved entry is at a target that was vacant. */
  lemma MovedToAVacantPlace(m: Tree, goers: set<Dn>, legacy: Dn, root: Dn, d: Dn)
    requires AllCanGo(m, goers, legacy, root) && Leaves(goers, legacy, d)
    requires Where(m, goers, legacy, root, d).Some?
    ensures var e, target := Where(m, goers, legacy, root, d).value, Target(ChildAbove(d, legacy), root);
      Under(e, target) && Vacant(m, target)
  {
  }

  lemma SameChild(c: Dn, c': Dn, legacy: Dn, root: Dn)
    requires IsChild(c, legacy) && IsChild(c', legacy) && Under(Target(c', root), Target(c, root))
    ensures c == c'
  {
    assert Target(c', root)[0..] == Target(c', root);
    assert Target(c, root)[0] == c[0] && Target(c', root)[0] == c'[0];
    assert c == [c[0]] + c[1..] && c' == [c'[0]] + c'[1..];
  }

  /** No two entries come to the same place. */
  lemma WhereIsInjective(m: Tree, goers: set<Dn>, legacy: Dn, root: Dn, d: Dn, d': Dn)
    requires AllCanGo(m, goers, legacy, root) && d in m && d' in m
    requires Where(m, goers, legacy, root, d).Some?
    requires Where(m, goers, legacy, root, d) == Where(m, goers, legacy, root, d')
    ensures d == d'
  {
    hide CanGo, Rebase;
    if Leaves(goers, legacy, d) { MovedToAVacantPlace(m, goers, legacy, root, d); }
    if Leaves(goers, legacy, d') { MovedToAVacantPlace(m, goers, legacy, root, d'); }
    if Leaves(goers, legacy, d) && Leaves(goers, legacy, d') {
      var c, c', e := ChildAbove(d, legacy), ChildAbove(d', legacy), Where(m, goers, legacy, root, d).value;
      BasesOfOneNameNest(e, Target(c, root), Target(c', root));
      SameChild(c, c', legacy, root);
      assert Rebased(e, Target(c, root), c) == d && Rebased(e, Target(c', root), c') == d';
    }
  }

  /** The directory `t` holds exactly what came from `m`. */
  ghost predicate Holds(m: Tree, t: Tree, goers: set<Dn>, legacy: Dn, root: Dn)
  {
    && (forall d | d in m :: Arrives(m, t, goers, legacy, root, d))
    && (forall e | e in t :: exists d :: d in m && Where(m, goers, legacy, root, d) == Some(e))
  }

  ghost predicate Arrives(m: Tree, t: Tree, goers: set<Dn>, legacy: Dn, root: Dn, d: Dn)
    requires d in m
  {
    var e := Where(m, goers, legacy, root, d);
    e.Some? ==> e.value in t && t[e.value] == m[d]
  }

  /** Before a child is treated, what is below it is what was below it. */
  lemma OwnEntriesOnly(m: Tree, goers: set<Dn>, child: Dn, legacy: Dn, root: Dn, d: Dn)
    requires AllCanGo(m, goers, legacy, root) && child !in goers
    requires legacy in m && legacy != root && IsChild(child, legacy) && CanGo(m, child, root)
    requires Where(m, goers, legacy, root, d).Some?
    ensures var e := Where(m, goers, legacy, root, d).value;
      Under(e, child) <==> Under(d, child)
    ensures Under(d, child) ==> Where(m, goers, legacy, root, d) == Some(d)
  {
    hide CanGo, Rebase;
    BelowAChild(d, child, legacy);
    if Leaves(goers, legacy, d) {
      MovedToAVacantPlace(m, goers, legacy, root, d);
      RootIsNotBelow(m, child, legacy, root);
      VacantTargetIsApart(m, ChildAbove(d, legacy)[0], child, legacy, root, Where(m, goers, legacy, root, d).value);
    }
  }

  lemma OneMoreGoer(m: Tree, goers: set<Dn>, child: Dn, legacy: Dn, root: Dn, d: Dn)
    requires IsChild(child, legacy)
    ensures !Under(d, child) ==>
      Where(m, goers + {child}, legacy, root, d) == Where(m, goers, legacy, root, d)
    ensures Under(d, child) ==>
      Where(m, goers + {child}, legacy, root, d) ==
        if Target(child, root) in m then None else Some(Rebase(d, child, Target(child, root)))
  {
    BelowAChild(d, child, legacy);
  }

  lemma DuplicateGoes(m: Tree, t: Tree, goers: set<Dn>, child: Dn, legacy: Dn, root: Dn)
    requires Holds(m, t, goers, legacy, root) && AllCanGo(m, goers, legacy, root) && child !in goers
    requires legacy in m && legacy != root && IsChild(child, legacy) && CanGo(m, child, root)
    requires Target(child, root) in m
    ensures Holds(m, t - {child}, goers + {child}, legacy, root)
  {
    hide Where;
    var t', all := t - {child}, goers + {child};
    assert Under(child, child) by { assert child[0..] == child; }
    forall d | d in m ensures Arrives(m, t', all, legacy, root, d) {
      assert Arrives(m, t, goers, legacy, root, d);
      OneMoreGoer(m, goers, child, legacy, root, d);
      if Where(m, goers, legacy, root, d).Some? { OwnEntriesOnly(m, goers, child, legacy, root, d); }
    }
    forall e | e in t' ensures exists d :: d in m && Where(m, all, legacy, root, d) == Some(e) {
      var d :| d in m && Where(m, goers, legacy, root, d) == Some(e);
      OneMoreGoer(m, goers, child, legacy, root, d);
      OwnEntriesOnly(m, goers, child, legacy, root, d);
      assert IsLeaf(m, child);
    }
  }

  lemma OtherGoes(m: Tree, t: Tree, goers: set<Dn>, child: Dn, legacy: Dn, root: Dn)
    requires Holds(m, t, goers, legacy, root) && AllCanGo(m, goers, legacy, root) && child !in goers
    requires legacy in m && legacy != root && IsChild(child, legacy) && CanGo(m, child, root)
    requires Target(child, root) !in m && Vacant(t, Target(child, root))
    ensures Holds(m, Moved(t, child, Target(child, root)), goers + {child}, legacy, root)
  {
    hide Where, Moved, Rebase;
    var target := Target(child, root);
    var t', all := Moved(t, child, target), goers + {child};
    forall d | d in m ensures Arrives(m, t', all, legacy, root, d) {
      assert Arrives(m, t, goers, legacy, root, d);
      OneMoreGoer(m, goers, child, legacy, root, d);
      if Where(m, goers, legacy, root, d).Some? { OwnEntriesOnly(m, goers, child, legacy, root, d); }
      if Under(d, child) { OwnIsInPlace(m, goers, child, legacy, root, d); }
    }
    forall e | e in t' ensures exists d :: d in m && Where(m, all, legacy, root, d) == Some(e) {
      var o := if Under(e, target) then Rebase(e, target, child) else e;
      var d :| d in m && Where(m, goers, legacy, root, d) == Some(o);
      OneMoreGoer(m, goers, child, legacy, root, d);
      OwnEntriesOnly(m, goers, child, legacy, root, d);
      if Under(e, target) { RebaseBack(e, child, target); }
    }
  }

  lemma OwnIsInPlace(m: Tree, goers: set<Dn>, child: Dn, legacy: Dn, root: Dn, d: Dn)
    requires IsChild(child, legacy) && child !in goers && Under(d, child)
    ensures Where(m, goers, legacy, root, d) == Some(d)
  {
    BelowAChild(d, child, legacy);
  }

  lemma RebaseBack(e: Dn, child: Dn, target: Dn)
    requires Under(e, target)
    ensures Rebase(Rebase(e, target, child), child, target) == e
  {
  }

  /** A treated child goes exactly if it is not refused and could go at first. */
  lemma StepHolds(m: Tree, t: Tally, goers: set<Dn>, child: Dn, legacy: Dn, root: Dn, refused: bool)
    requires Holds(m, t.tree, goers, legacy, root) && AllCanGo(m, goers, legacy, root) && child !in goers
    requires legacy in m && legacy != root && IsChild(child, legacy)
    requires CanGo(t.tree, child, root) <==> CanGo(m, child, root)
    requires Target(child, root) in t.tree <==> Target(child, root) in m
    ensures var all := if !refused && CanGo(m, child, root) then goers + {child} else goers;
      Holds(m, ChildStep(t, child, root, refused).tree, all, legacy, root)
  {
    hide Holds, AllCanGo, Moved, Under, IsLeaf, Vacant;
    if !refused && CanGo(m, child, root) {
      if Target(child, root) in m {
        DuplicateGoes(m, t.tree, goers, child, legacy, root);
      } else {
        OtherGoes(m, t.tree, goers, child, legacy, root);
      }
    }
  }

  lemma TargetIsThereIff(m: Tree, front: seq<Dn>, child: Dn, legacy: Dn, root: Dn, refused: seq<bool>)
    requires |refused| == |front| && Siblings(front, legacy) && Proper(front) && legacy != root && legacy in m
    requires IsChild(child, legacy) && child !in front
    ensures Target(child, root) in ChildSteps(m, front, root, refused).tree <==> Target(child, root) in m
  {
    hide ChildSteps, NewOnlyAtTargets;
    var t, target := ChildSteps(m, front, root, refused).tree, Target(child, root);
    TargetStays(m, front, legacy, root, refused, child[0]);
    StepsAddOnlyAtTargets(m, front, legacy, root, refused);
    assert target[0..] == target && Under(target, target);
    if target in t && target !in m { NothingNew(m, t, front, child, legacy, root, target); }
  }

  lemma GoersInFront(m: Tree, children: seq<Dn>, legacy: Dn, root: Dn, refused: seq<bool>)
    requires |refused| == |children| && Siblings(children, legacy) && Proper(children) && children != []
    ensures var k := |children| - 1;
      && children[k] !in Goers(m, children[..k], root, refused[..k])
      && var front := Goers(m, children[..k], root, refused[..k]);
      Goers(m, children, root, refused) ==
        if !refused[k] && CanGo(m, children[k], root) then front + {children[k]} else front
  {
    hide CanGo;
    var k := |children| - 1;
    var front, more := Goers(m, children[..k], root, refused[..k]),
      if !refused[k] && CanGo(m, children[k], root) then {children[k]} else {};
    forall c | c in Goers(m, children, root, refused) ensures c in front + more {
      var i :| 0 <= i < |children| && !refused[i] && CanGo(m, children[i], root) && c == children[i];
      if i < k { assert children[..k][i] == c; }
    }
  }

  lemma GoersCanGo(m: Tree, children: seq<Dn>, legacy: Dn, root: Dn, refused: seq<bool>)
    requires |refused| == |children| && Siblings(children, legacy) && Proper(children)
    ensures AllCanGo(m, Goers(m, children, root, refused), legacy, root)
  {
    hide CanGo;
  }

  /** After the children every entry is where the directory before, and the refusals, say, and nothing else is there. */
  lemma {:induction false} StepsHold(m: Tree, children: seq<Dn>, legacy: Dn, root: Dn, refused: seq<bool>)
    requires |refused| == |children| && Siblings(children, legacy) && Proper(children) && legacy != root && legacy in m
    requires forall i | 0 <= i < |children| :: children[i] in m
    ensures Holds(m, ChildSteps(m, children, root, refused).tree, Goers(m, children, root, refused), legacy, root)
  {
    hide Holds, ChildStep, CanGo, AllCanGo, Goers;
    if children == [] {
      NobodyGoes(m, children, legacy, root, refused);
    } else {
      var k := |children| - 1;
      var front, child := children[..k], children[k];
      assert child !in front;
      StepsHold(m, front, legacy, root, refused[..k]);
      GoersCanGo(m, front, legacy, root, refused[..k]);
      GoersInFront(m, children, legacy, root, refused);
      CanGoStays(m, front, child, legacy, root, refused[..k]);
      TargetIsThereIff(m, front, child, legacy, root, refused[..k]);
      StepHolds(m, ChildSteps(m, front, root, refused[..k]), Goers(m, front, root, refused[..k]), child, legacy,
                root, refused[k]);
    }
  }

  lemma NobodyGoes(m: Tree, children: seq<Dn>, legacy: Dn, root: Dn, refused: seq<bool>)
    requires children == [] && refused == []
    ensures Holds(m, m, Goers(m, children, root, refused), legacy, root)
  {
    assert Goers(m, children, root, refused) == {};
    forall e | e in m ensures exists d :: d in m && Where(m, {}, legacy, root, d) == Some(e) {
      assert Where(m, {}, legacy, root, e) == Some(e);
    }
  }

  // ---- The whole migration -------------------------------------------------------------

  /** Where an entry is after a migration in which the children in `goers` go, and the legacy root if it `completes`. */
  ghost function EndsAt(m: Tree, goers: set<Dn>, completes: bool, legacy: Dn, root: Dn, d: Dn): Option<Dn>
  {
    if completes && d == legacy then None else Where(m, goers, legacy, root, d)
  }

  /** The directory after holds exactly what came from the one before, each entry at its own place. */
  ghost predicate Keeps(m: Tree, m': Tree, goers: set<Dn>, completes: bool, legacy: Dn, root: Dn)
  {
    && (forall d | d in m && EndsAt(m, goers, completes, legacy, root, d).Some? ::
          var e := EndsAt(m, goers, completes, legacy, root, d).value; e in m' && m'[e] == m[d])
    && (forall e | e in m' :: exists d :: d in m && EndsAt(m, goers, completes, legacy, root, d) == Some(e))
  }

  lemma Origin(m: Tree, m': Tree, goers: set<Dn>, completes: bool, legacy: Dn, root: Dn, e: Dn) returns (d: Dn)
    requires Keeps(m, m', goers, completes, legacy, root) && e in m'
    ensures d in m && EndsAt(m, goers, completes, legacy, root, d) == Some(e) && m'[e] == m[d]
  {
    hide EndsAt;
    d :| d in m && EndsAt(m, goers, completes, legacy, root, d) == Some(e);
    assert EndsAt(m, goers, completes, legacy, root, d).Some?;
  }

  lemma OnlyLegacyIsAtLegacy(m: Tree, goers: set<Dn>, legacy: Dn, root: Dn, d: Dn)
    requires AllCanGo(m, goers, legacy, root) && legacy in m
    requires Where(m, goers, legacy, root, d) == Some(legacy)
    ensures d == legacy
  {
    hide CanGo, Rebase;
    if Leaves(goers, legacy, d) { MovedToAVacantPlace(m, goers, legacy, root, d); }
  }

  lemma LegacyGoesLast(m: Tree, t: Tree, goers: set<Dn>, legacy: Dn, root: Dn)
    requires Holds(m, t, goers, legacy, root) && AllCanGo(m, goers, legacy, root) && legacy in m
    ensures Keeps(m, t - {legacy}, goers, true, legacy, root) && Keeps(m, t, goers, false, legacy, root)
  {
    hide Where, AllCanGo;
    forall d | d in m && EndsAt(m, goers, true, legacy, root, d).Some?
      ensures var e := EndsAt(m, goers, true, legacy, root, d).value; e in t - {legacy} && t[e] == m[d]
    {
      assert Arrives(m, t, goers, legacy, root, d);
      if EndsAt(m, goers, true, legacy, root, d) == Some(legacy) {
        OnlyLegacyIsAtLegacy(m, goers, legacy, root, d);
      }
    }
    forall d | d in m && EndsAt(m, goers, false, legacy, root, d).Some?
      ensures var e := EndsAt(m, goers, false, legacy, root, d).value; e in t && t[e] == m[d]
    {
      assert Arrives(m, t, goers, legacy, root, d);
    }
    forall e | e in t ensures exists d :: d in m && EndsAt(m, goers, false, legacy, root, d) == Some(e) {
      var d :| d in m && Where(m, goers, legacy, root, d) == Some(e);
      assert EndsAt(m, goers, false, legacy, root, d) == Some(e);
    }
    forall e | e in t - {legacy} ensures exists d :: d in m && EndsAt(m, goers, true, legacy, root, d) == Some(e) {
      var d :| d in m && Where(m, goers, legacy, root, d) == Some(e);
      LegacyStays(m, goers, legacy, root);
      assert EndsAt(m, goers, true, legacy, root, d) == Some(e);
    }
  }

  lemma LegacyStays(m: Tree, goers: set<Dn>, legacy: Dn, root: Dn)
    ensures Where(m, goers, legacy, root, legacy) == Some(legacy)
  {
  }

  /** Whatever the server refuses, the directory before and the refusals decide where every entry is afterwards, and
      nothing else is there. */
  lemma MigrationKeeps(m: Tree, children: seq<Dn>, legacy: Dn, root: Dn, refused: seq<bool>, rootRefused: bool)
    requires |refused| == |children| && Lists(children, m, legacy) && Proper(children) && legacy != root && legacy in m
    ensures Keeps(m, MigratedWith(m, legacy, root, children, refused, rootRefused), Goers(m, children, root, refused),
                  Completes(m, children, legacy, root, refused, rootRefused), legacy, root)
  {
    hide Keeps, Holds, Completes, MigratedWith, Goers, AllCanGo;
    ListedAreSiblings(children, m, legacy);
    forall i | 0 <= i < |children| ensures children[i] in m { assert children[i] in children; }
    StepsHold(m, children, legacy, root, refused);
    GoersCanGo(m, children, legacy, root, refused);
    CompletesIff(m, children, legacy, root, refused, rootRefused);
    LegacyGoesLast(m, ChildSteps(m, children, root, refused).tree, Goers(m, children, root, refused), legacy, root);
  }

  // ---- On a willing server -------------------------------------------------------------

  /** The children that go if the server refuses nothing. */
  ghost function Movers(m: Tree, legacy: Dn, root: Dn): set<Dn>
  {
    if legacy == root || legacy !in m then {} else set c | c in m && IsChild(c, legacy) && CanGo(m, c, root)
  }

  ghost predicate Ends(m: Tree, legacy: Dn, root: Dn) { legacy != root && legacy in m && Clear(m, legacy, root) }

  /** Where an entry is after a migration the server does not refuse. */
  ghost function Place(m: Tree, legacy: Dn, root: Dn, d: Dn): Option<Dn>
  {
    EndsAt(m, Movers(m, legacy, root), Ends(m, legacy, root), legacy, root, d)
  }

  lemma WillingGoers(m: Tree, children: seq<Dn>, legacy: Dn, root: Dn)
    requires Lists(children, m, legacy) && Proper(children) && legacy != root && legacy in m
    ensures Goers(m, children, root, Willing(|children|)) == Movers(m, legacy, root)
    ensures Completes(m, children, legacy, root, Willing(|children|), false) <==> Ends(m, legacy, root)
  {
    hide CanGo, NoOrphans;
    ListedAreSiblings(children, m, legacy);
    var refused := Willing(|children|);
    forall c | c in m && IsChild(c, legacy) ensures exists i :: 0 <= i < |children| && children[i] == c {
      assert c in children;
    }
    forall i | 0 <= i < |children| ensures children[i] in m && IsChild(children[i], legacy) {
      assert children[i] in children;
    }
    if AllGo(m, children, root, refused) {
      forall c | c in m && IsChild(c, legacy) ensures CanGo(m, c, root) {
        var i :| 0 <= i < |children| && children[i] == c;
        assert CanGo(m, children[i], root);
      }
    }
  }

  /** The directory after a willing migration holds each entry at its place and nothing else. */
  lemma WillingMigrationKeeps(m: Tree, legacy: Dn, root: Dn, order: seq<Dn>)
    requires Proper(order) && (legacy != root ==> ListsIfPresent(order, m, legacy))
    ensures Keeps(m, Migrated(m, legacy, root, order), Movers(m, legacy, root), Ends(m, legacy, root), legacy, root)
  {
    if legacy == root || legacy !in m {
      forall d ensures EndsAt(m, {}, false, legacy, root, d) == Some(d) {}
    } else {
      hide Keeps, Movers, Ends, MigratedWith, Completes, Goers;
      MigrationKeeps(m, order, legacy, root, Willing(|order|), false);
      WillingGoers(m, order, legacy, root);
    }
  }

  lemma MoversCanGo(m: Tree, legacy: Dn, root: Dn)
    ensures AllCanGo(m, Movers(m, legacy, root), legacy, root)
  {
    hide CanGo;
  }

  /** No two entries have the same place. */
  lemma PlaceIsInjective(m: Tree, legacy: Dn, root: Dn, d: Dn, d': Dn)
    requires d in m && d' in m && Place(m, legacy, root, d).Some?
    requires Place(m, legacy, root, d) == Place(m, legacy, root, d')
    ensures d == d'
  {
    hide Movers, Ends, AllCanGo, Where;
    MoversCanGo(m, legacy, root);
    WhereIsInjective(m, Movers(m, legacy, root), legacy, root, d, d');
  }

  /** What ends at a name that was in use has not moved. */
  lemma PlaceInUse(m: Tree, legacy: Dn, root: Dn, d: Dn)
    requires d in m && Place(m, legacy, root, d).Some? && Place(m, legacy, root, d).value in m
    ensures Place(m, legacy, root, d) == Some(d)
  {
    hide Movers, Ends, CanGo, Rebase;
    var goers := Movers(m, legacy, root);
    MoversCanGo(m, legacy, root);
    if Leaves(goers, legacy, d) { MovedToAVacantPlace(m, goers, legacy, root, d); }
  }

  /** The order in which the server lists the children makes no difference. */
  lemma OrderDoesNotMatter(m: Tree, legacy: Dn, root: Dn, order: seq<Dn>, order': seq<Dn>)
    requires Proper(order) && (legacy != root ==> ListsIfPresent(order, m, legacy))
    requires Proper(order') && (legacy != root ==> ListsIfPresent(order', m, legacy))
    ensures Migrated(m, legacy, root, order) == Migrated(m, legacy, root, order')
  {
    hide Migrated, Movers, Ends, EndsAt;
    WillingMigrationKeeps(m, legacy, root, order);
    WillingMigrationKeeps(m, legacy, root, order');
    assert Migrated(m, legacy, root, order) == Migrated(m, legacy, root, order');
  }
}
