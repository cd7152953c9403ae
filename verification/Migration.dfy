/** The migration of agent groups from the legacy root to the new one, on a server that may refuse any change. */
module Migration {
  import opened Directory

  /** The directory with the counters of the migration. */
  datatype Tally = Tally(tree: Tree, moved: nat, deleted: nat, failed: nat)

  function Target(child: Dn, root: Dn): Dn
    requires child != []
  {
    [child[0]] + root
  }

  /** One child: a duplicate of an entry of the new root is deleted, any other child moves there. */
  function ChildStep(t: Tally, child: Dn, root: Dn, refused: bool): Tally
    requires child != []
  {
    var duplicate := Target(child, root) in t.tree;
    var answer := if duplicate then Delete(t.tree, child) else ModifyDn(t.tree, child, root);
    if refused || answer.code != SUCCESS then t.(failed := t.failed + 1)
    else if duplicate then Tally(answer.tree, t.moved, t.deleted + 1, t.failed)
    else Tally(answer.tree, t.moved + 1, t.deleted, t.failed)
  }

  predicate Proper(children: seq<Dn>) { forall i | 0 <= i < |children| :: children[i] != [] }

  function ChildSteps(m: Tree, children: seq<Dn>, root: Dn, refused: seq<bool>): Tally
    requires |refused| == |children| && Proper(children)
  {
    if children == [] then Tally(m, 0, 0, 0) else
    var k := |children| - 1;
    ChildStep(ChildSteps(m, children[..k], root, refused[..k]), children[k], root, refused[k])
  }

  /** Every child was moved, deleted as a duplicate, or failed. */
  lemma {:induction false} EveryChildIsCounted(m: Tree, children: seq<Dn>, root: Dn, refused: seq<bool>)
    requires |refused| == |children| && Proper(children)
    ensures var t := ChildSteps(m, children, root, refused); t.moved + t.deleted + t.failed == |children|
  {
    if children != [] {
      var k := |children| - 1;
      EveryChildIsCounted(m, children[..k], root, refused[..k]);
    }
  }

  // ---- Suffixes ------------------------------------------------------------------------

  lemma UnderIsTransitive(a: Dn, b: Dn, c: Dn)
    requires Under(a, b) && Under(b, c)
    ensures Under(a, c)
  {
    assert a[|a| - |c|..] == a[|a| - |b|..][|b| - |c|..];
  }

  /** Two bases above one name are nested. */
  lemma BasesOfOneNameNest(d: Dn, a: Dn, b: Dn)
    requires Under(d, a) && Under(d, b) && |a| <= |b|
    ensures Under(b, a)
  {
    assert b[|b| - |a|..] == d[|d| - |a|..];
  }

  lemma UnderTarget(d: Dn, name: Rdn, root: Dn)
    ensures Under(d, [name] + root) ==> Under(d, root)
    ensures Under([name] + root, d) ==> d == [name] + root || Under(root, d)
  {
    var t := [name] + root;
    assert t[1..] == root;
    if Under(d, t) {
      assert Under(t, root);
      UnderIsTransitive(d, t, root);
    }
    if Under(t, d) && |d| <= |root| {
      assert root[|root| - |d|..] == t[|t| - |d|..];
    }
  }

  /** A name below a child of one base and below another base shows how the two are nested. */
  lemma SharedName(d: Dn, child: Dn, legacy: Dn, root: Dn)
    requires IsChild(child, legacy) && Under(d, child) && Under(d, root)
    ensures Under(legacy, root) || Under(root, child)
  {
    if |child| <= |root| {
      BasesOfOneNameNest(d, child, root);
    } else {
      BasesOfOneNameNest(d, root, child);
      assert legacy[|legacy| - |root|..] == child[|child| - |root|..];
    }
  }

  // ---- What one step does --------------------------------------------------------------

  /** A step takes nothing away but what is under its child, and that only to the child's target, which was vacant, or
      because the target exists; it adds nothing but what is under the target. */
  lemma StepIsLocal(t: Tally, child: Dn, root: Dn, refused: bool)
    requires child != []
    ensures var m, m' := t.tree, ChildStep(t, child, root, refused).tree;
      && (forall d :: d in m && !Under(d, child) ==> d in m' && m'[d] == m[d])
      && (forall d :: d in m' && d !in m ==> Under(d, Target(child, root)) && Vacant(m, Target(child, root)))
      && (Target(child, root) !in m && m' != m ==>
            Vacant(m, Target(child, root)) && Relocated(m, m', child, Target(child, root)))
      && (Target(child, root) in m && m' != m ==> m' == m - {child})
  {
  }

  /** The entries of one place are now at the other. */
  ghost predicate Relocated(m: Tree, m': Tree, from: Dn, to: Dn)
  {
    forall d :: d in m && Under(d, from) ==> Rebase(d, from, to) in m' && m'[Rebase(d, from, to)] == m[d]
  }

  ghost predicate InPlace(m: Tree, m': Tree, at: Dn)
  {
    forall d :: d in m && Under(d, at) ==> d in m' && m'[d] == m[d]
  }

  /** Where a child of the legacy root is, relative to the directory `m` before the migration. */
  ghost predicate Accounted(m: Tree, m': Tree, child: Dn, root: Dn)
    requires child != []
  {
    || InPlace(m, m', child)
    || (Vacant(m, Target(child, root)) && Relocated(m, m', child, Target(child, root)))
    || (Target(child, root) in m && Target(child, root) in m')
  }

  ghost predicate Siblings(children: seq<Dn>, legacy: Dn)
  {
    && (forall i | 0 <= i < |children| :: IsChild(children[i], legacy))
    && (forall i, j | 0 <= i < j < |children| :: children[i] != children[j])
  }

  /** Below the new root nothing that was there is touched. */
  lemma {:induction false} NewRootIsUntouched(m: Tree, children: seq<Dn>, legacy: Dn, root: Dn, refused: seq<bool>)
    requires |refused| == |children| && Siblings(children, legacy) && legacy != root && !Under(legacy, root)
    ensures InPlace(m, ChildSteps(m, children, root, refused).tree, root)
  {
    if children != [] {
      var k := |children| - 1;
      var child := children[k];
      assert Siblings(children[..k], legacy);
      NewRootIsUntouched(m, children[..k], legacy, root, refused[..k]);
      var t := ChildSteps(m, children[..k], root, refused[..k]);
      StepIsLocal(t, child, root, refused[k]);
      var m' := ChildStep(t, child, root, refused[k]).tree;
      forall d | d in t.tree && Under(d, root) && m' != t.tree ensures d in m' && m'[d] == t.tree[d] {
        if Under(d, child) {
          SharedName(d, child, legacy, root);
          RootBelowChildStays(t, child, root, refused[k]);
        }
      }
    }
  }

  /** A child above the new root can be neither moved nor deleted while a duplicate of it exists. */
  lemma RootBelowChildStays(t: Tally, child: Dn, root: Dn, refused: bool)
    requires child != [] && Under(root, child)
    ensures ChildStep(t, child, root, refused).tree == t.tree
  {
    var target := Target(child, root);
    assert target[1..] == root;
    assert Under(target, root);
    UnderIsTransitive(target, root, child);
    assert target != child;
  }

  /** A name that is not below the legacy root stays, and so does the legacy root itself. */
  lemma {:induction false} OutsideStays(m: Tree, children: seq<Dn>, legacy: Dn, root: Dn, refused: seq<bool>, d: Dn)
    requires |refused| == |children| && Siblings(children, legacy)
    requires d == legacy || !Under(d, legacy)
    ensures d in m ==>
      d in ChildSteps(m, children, root, refused).tree && ChildSteps(m, children, root, refused).tree[d] == m[d]
  {
    if children != [] {
      var k := |children| - 1;
      var child := children[k];
      assert Siblings(children[..k], legacy);
      OutsideStays(m, children[..k], legacy, root, refused[..k], d);
      StepIsLocal(ChildSteps(m, children[..k], root, refused[..k]), child, root, refused[k]);
      assert child[1..] == legacy && Under(child, legacy);
      if Under(d, child) { UnderIsTransitive(d, child, legacy); }
    }
  }

  /** What is under the new root stays, unless the legacy root is there too and above it. */
  lemma ProtectedStays(m: Tree, children: seq<Dn>, legacy: Dn, root: Dn, refused: seq<bool>, d: Dn)
    requires |refused| == |children| && Siblings(children, legacy) && legacy != root
    requires Under(d, root) && !(Under(legacy, root) && Under(d, legacy) && d != legacy)
    ensures d in m ==>
      d in ChildSteps(m, children, root, refused).tree && ChildSteps(m, children, root, refused).tree[d] == m[d]
  {
    if Under(legacy, root) {
      OutsideStays(m, children, legacy, root, refused, d);
    } else {
      NewRootIsUntouched(m, children, legacy, root, refused);
    }
  }

  /** A target below the legacy root shows that the new root lies there. */
  lemma TargetBelowLegacy(name: Rdn, legacy: Dn, root: Dn)
    requires Under([name] + root, legacy) && [name] + root != legacy
    ensures Under(root, legacy) && (root != legacy ==> !Under(legacy, root))
  {
    UnderTarget(legacy, name, root);
  }

  lemma TargetStays(m: Tree, children: seq<Dn>, legacy: Dn, root: Dn, refused: seq<bool>, name: Rdn)
    requires |refused| == |children| && Siblings(children, legacy) && legacy != root
    ensures [name] + root in m ==> [name] + root in ChildSteps(m, children, root, refused).tree
  {
    var target := [name] + root;
    assert target[1..] == root && Under(target, root);
    if Under(target, legacy) && target != legacy { TargetBelowLegacy(name, legacy, root); }
    ProtectedStays(m, children, legacy, root, refused, target);
  }

  /** A target that is vacant now was vacant before. */
  lemma VacantTarget(m: Tree, children: seq<Dn>, legacy: Dn, root: Dn, refused: seq<bool>, name: Rdn)
    requires |refused| == |children| && Siblings(children, legacy) && legacy != root && legacy in m
    ensures Vacant(ChildSteps(m, children, root, refused).tree, [name] + root) ==> Vacant(m, [name] + root)
  {
    var target, m' := [name] + root, ChildSteps(m, children, root, refused).tree;
    OutsideStays(m, children, legacy, root, refused, legacy);
    if Vacant(m', target) {
      forall d | d in m ensures !Under(d, target) {
        if Under(d, target) {
          UnderTarget(d, name, root);
          if Under(d, legacy) {
            if |target| <= |legacy| {
              BasesOfOneNameNest(d, target, legacy);
            } else {
              BasesOfOneNameNest(d, legacy, target);
              TargetBelowLegacy(name, legacy, root);
            }
          }
          ProtectedStays(m, children, legacy, root, refused, d);
        }
      }
    }
  }

  // ---- Nothing is lost -----------------------------------------------------------------

  /** Nothing at a target that was vacant beside the legacy root is below another child, unless the new root is. */
  lemma TargetApart(d: Dn, child: Dn, name: Rdn, legacy: Dn, root: Dn)
    requires IsChild(child, legacy) && legacy != root
    requires Under(d, [name] + root) && Under(d, child)
    ensures Under(legacy, [name] + root) || Under(root, child)
  {
    var target := [name] + root;
    assert target[1..] == root && child[1..] == legacy && child == [child[0]] + legacy && child[0..] == child;
    if |target| <= |child| {
      BasesOfOneNameNest(d, target, child);
      UnderTarget(target, child[0], legacy);
      UnderTarget(child, name, root);
      if |target| <= |legacy| {
        assert legacy[|legacy| - |target|..] == child[|child| - |target|..];
      }
    } else {
      BasesOfOneNameNest(d, child, target);
      assert root[|root| - |child|..] == target[|target| - |child|..];
    }
  }

  /** What is accounted for stays so when another child is treated. */
  lemma StepKeepsAccount(m: Tree, t: Tally, child: Dn, other: Dn, legacy: Dn, root: Dn, refused: bool)
    requires IsChild(child, legacy) && IsChild(other, legacy) && child != other
    requires legacy != root && legacy in m
    requires Accounted(m, t.tree, other, root)
    ensures Accounted(m, ChildStep(t, child, root, refused).tree, other, root)
  {
    var m', target := ChildStep(t, child, root, refused).tree, Target(other, root);
    StepIsLocal(t, child, root, refused);
    if m' != t.tree {
      if Under(root, child) { RootBelowChildStays(t, child, root, refused); }
      assert !Under(root, child);
      if InPlace(m, t.tree, other) {
        forall d | d in m && Under(d, other) ensures !Under(d, child) {
          if Under(d, child) { BasesOfOneNameNest(d, child, other); }
        }
      } else if Vacant(m, target) && Relocated(m, t.tree, other, target) {
        forall d | Under(d, target) ensures !Under(d, child) {
          if Under(d, child) { TargetApart(d, child, other[0], legacy, root); }
        }
        assert Relocated(m, m', other, target);
      } else {
        TargetIsNotBelow(target, child, other[0], legacy, root);
      }
    }
  }

  lemma TargetIsNotBelow(target: Dn, child: Dn, name: Rdn, legacy: Dn, root: Dn)
    requires target == [name] + root && IsChild(child, legacy) && legacy != root && !Under(root, child)
    ensures !Under(target, child)
  {
    assert target[1..] == root && child[1..] == legacy;
    if Under(target, child) {
      UnderTarget(child, name, root);
    }
  }

  lemma StepAccountsForItsChild(m: Tree, t: Tally, child: Dn, legacy: Dn, root: Dn, refused: bool)
    requires IsChild(child, legacy) && legacy != root
    requires InPlace(m, t.tree, child)
    requires Target(child, root) in t.tree ==> Target(child, root) in m
    requires Vacant(t.tree, Target(child, root)) ==> Vacant(m, Target(child, root))
    ensures Accounted(m, ChildStep(t, child, root, refused).tree, child, root)
  {
    var m', target := ChildStep(t, child, root, refused).tree, Target(child, root);
    StepIsLocal(t, child, root, refused);
    assert target[1..] == root && child[1..] == legacy;
    if m' != t.tree && target !in t.tree {
      forall d | d in m && Under(d, child)
        ensures Rebase(d, child, target) in m' && m'[Rebase(d, child, target)] == m[d]
      {
        assert d in t.tree && t.tree[d] == m[d];
      }
    }
  }

  /** What is new lies at the target of a treated child, and not above the legacy root. */
  ghost predicate NewOnlyAtTargets(m: Tree, m': Tree, children: seq<Dn>, legacy: Dn, root: Dn)
    requires Proper(children)
  {
    forall d :: d in m' && d !in m ==> exists i :: 0 <= i < |children| && ArrivedAt(d, children[i], legacy, root)
  }

  ghost predicate ArrivedAt(d: Dn, child: Dn, legacy: Dn, root: Dn)
    requires child != []
  {
    Under(d, Target(child, root)) && !Under(legacy, Target(child, root))
  }

  lemma {:induction false} StepsAddOnlyAtTargets(m: Tree, children: seq<Dn>, legacy: Dn, root: Dn, refused: seq<bool>)
    requires |refused| == |children| && Proper(children) && Siblings(children, legacy) && legacy in m
    ensures NewOnlyAtTargets(m, ChildSteps(m, children, root, refused).tree, children, legacy, root)
  {
    if children != [] {
      var k := |children| - 1;
      var front := children[..k];
      assert Siblings(front, legacy);
      StepsAddOnlyAtTargets(m, front, legacy, root, refused[..k]);
      OutsideStays(m, front, legacy, root, refused[..k], legacy);
      var t, m' := ChildSteps(m, front, root, refused[..k]), ChildSteps(m, children, root, refused).tree;
      StepIsLocal(t, children[k], root, refused[k]);
      forall d | d in m' && d !in m ensures exists i :: 0 <= i < |children| && ArrivedAt(d, children[i], legacy, root) {
        if d in t.tree {
          var i :| 0 <= i < |front| && ArrivedAt(d, front[i], legacy, root);
          assert ArrivedAt(d, children[i], legacy, root);
        } else {
          assert ArrivedAt(d, children[k], legacy, root);
        }
      }
    }
  }

  /** No new entry is a child of the legacy root. */
  lemma NoneArrivesAtLegacy(d: Dn, child: Dn, legacy: Dn, root: Dn)
    requires IsChild(child, legacy) && IsChild(d, legacy) && legacy != root
    ensures !ArrivedAt(d, child, legacy, root)
  {
    assert d[0..] == d;
    if ArrivedAt(d, child, legacy, root) { TargetApart(d, d, child[0], legacy, root); }
  }

  lemma TargetsDiffer(a: Dn, b: Dn, legacy: Dn, root: Dn)
    requires IsChild(a, legacy) && IsChild(b, legacy) && a != b
    ensures !Under(Target(a, root), Target(b, root))
  {
    assert a == [a[0]] + legacy && b == [b[0]] + legacy;
    assert Target(a, root)[0] == a[0] && Target(b, root)[0] == b[0];
    assert Target(a, root) != Target(b, root) && |Target(a, root)| == |Target(b, root)|;
  }

  /** The first steps leave a later child where it was. */
  lemma {:induction false} LaterChildIsInPlace(m: Tree, children: seq<Dn>, legacy: Dn, root: Dn, refused: seq<bool>,
                                               later: Dn)
    requires |refused| == |children| && Siblings(children, legacy) && IsChild(later, legacy) && later !in children
    ensures InPlace(m, ChildSteps(m, children, root, refused).tree, later)
  {
    if children != [] {
      var k := |children| - 1;
      LaterChildIsInPlace(m, children[..k], legacy, root, refused[..k], later);
      StepIsLocal(ChildSteps(m, children[..k], root, refused[..k]), children[k], root, refused[k]);
      forall d | Under(d, later) ensures !Under(d, children[k]) {
        if Under(d, children[k]) { BasesOfOneNameNest(d, later, children[k]); }
      }
    }
  }

  /** Whatever the server refuses, every child is in place with all below it, or at its target with all below it, or has
      a namesake that was under the new root before. */
  lemma {:induction false} EveryChildIsAccounted(m: Tree, children: seq<Dn>, legacy: Dn, root: Dn, refused: seq<bool>)
    requires |refused| == |children| && Siblings(children, legacy) && legacy != root && legacy in m
    ensures forall i | 0 <= i < |children| ::
      Accounted(m, ChildSteps(m, children, root, refused).tree, children[i], root)
  {
    if children != [] {
      var k := |children| - 1;
      var front, child := children[..k], children[k];
      EveryChildIsAccounted(m, front, legacy, root, refused[..k]);
      var t := ChildSteps(m, front, root, refused[..k]);
      forall i | 0 <= i < k
        ensures Accounted(m, ChildStep(t, child, root, refused[k]).tree, children[i], root)
      {
        assert front[i] == children[i];
        StepKeepsAccount(m, t, child, children[i], legacy, root, refused[k]);
      }
      NextChildIsReady(m, front, child, legacy, root, refused[..k]);
      StepAccountsForItsChild(m, t, child, legacy, root, refused[k]);
    }
  }

  lemma NextChildIsReady(m: Tree, front: seq<Dn>, child: Dn, legacy: Dn, root: Dn, refused: seq<bool>)
    requires |refused| == |front| && Siblings(front, legacy) && legacy != root && legacy in m
    requires IsChild(child, legacy) && child !in front
    ensures var t := ChildSteps(m, front, root, refused).tree;
      && InPlace(m, t, child)
      && (Target(child, root) in t ==> Target(child, root) in m)
      && (Vacant(t, Target(child, root)) ==> Vacant(m, Target(child, root)))
  {
    LaterChildIsInPlace(m, front, legacy, root, refused, child);
    VacantTarget(m, front, legacy, root, refused, child[0]);
    StepsAddOnlyAtTargets(m, front, legacy, root, refused);
    forall i | 0 <= i < |front| ensures !Under(Target(child, root), Target(front[i], root)) {
      TargetsDiffer(child, front[i], legacy, root);
    }
  }

  // ---- When nothing is refused ---------------------------------------------------------

  ghost predicate HasMoved(m: Tree, child: Dn, root: Dn)
    requires child != []
  {
    child !in m && Target(child, root) in m
  }

  lemma SuccessMovesTheChild(t: Tally, child: Dn, legacy: Dn, root: Dn, refused: bool)
    requires IsChild(child, legacy) && legacy != root
    requires ChildStep(t, child, root, refused).failed == t.failed
    ensures HasMoved(ChildStep(t, child, root, refused).tree, child, root)
  {
    hide Vacant, Moved, IsLeaf, Rebase;
    var target := Target(child, root);
    assert child[1..] == legacy && target[1..] == root;
    if target !in t.tree { ArrivesAtTarget(t.tree, child, target); }
  }

  lemma ArrivesAtTarget(m: Tree, child: Dn, target: Dn)
    requires child in m && Vacant(m, target)
    ensures child !in Moved(m, child, target) && target in Moved(m, child, target)
  {
    assert child[0..] == child && Under(child, child);
    assert Rebase(child, child, target) == target;
    assert !Under(child, target);
  }

  lemma SuccessKeepsTheRest(t: Tally, child: Dn, other: Dn, legacy: Dn, root: Dn, refused: bool)
    requires IsChild(child, legacy) && IsChild(other, legacy) && child != other && legacy != root
    requires legacy in t.tree && HasMoved(t.tree, other, root)
    ensures HasMoved(ChildStep(t, child, root, refused).tree, other, root)
  {
    StepIsLocal(t, child, root, refused);
    if Under(root, child) { RootBelowChildStays(t, child, root, refused); } else {
      TargetIsNotBelow(Target(other, root), child, other[0], legacy, root);
      NoneArrivesAtLegacy(other, child, legacy, root);
    }
  }

  ghost predicate AllMoved(m: Tree, children: seq<Dn>, root: Dn)
    requires Proper(children)
  {
    forall i | 0 <= i < |children| :: HasMoved(m, children[i], root)
  }

  lemma SuccessKeepsAll(t: Tally, front: seq<Dn>, child: Dn, legacy: Dn, root: Dn, refused: bool)
    requires Siblings(front + [child], legacy) && Proper(front) && AllMoved(t.tree, front, root)
    requires legacy != root && legacy in t.tree && child != []
    requires ChildStep(t, child, root, refused).failed == t.failed
    ensures AllMoved(ChildStep(t, child, root, refused).tree, front + [child], root)
  {
    hide ChildStep, HasMoved;
    var all := front + [child];
    assert all[|front|] == child;
    SuccessMovesTheChild(t, child, legacy, root, refused);
    forall i | 0 <= i < |front| ensures HasMoved(ChildStep(t, child, root, refused).tree, all[i], root) {
      assert all[i] == front[i];
      SuccessKeepsTheRest(t, child, front[i], legacy, root, refused);
    }
  }

  lemma {:induction false} NoFailureMovesAll(m: Tree, children: seq<Dn>, legacy: Dn, root: Dn, refused: seq<bool>)
    requires |refused| == |children| && Siblings(children, legacy) && legacy != root && legacy in m
    requires ChildSteps(m, children, root, refused).failed == 0
    ensures AllMoved(ChildSteps(m, children, root, refused).tree, children, root)
  {
    hide AllMoved, ChildStep;
    if children != [] { SiblingsInFront(children, legacy); }
    if children != [] {
      var k := |children| - 1;
      FailuresStay(ChildSteps(m, children[..k], root, refused[..k]), children[k], root, refused[k]);
      NoFailureMovesAll(m, children[..k], legacy, root, refused[..k]);
      OutsideStays(m, children[..k], legacy, root, refused[..k], legacy);
      assert children[..k] + [children[k]] == children;
      var before := ChildSteps(m, children[..k], root, refused[..k]);
      SuccessKeepsAll(before, children[..k], children[k], legacy, root, refused[k]);
    } else {
      NoneMoved(m, root);
    }
  }

  lemma FailuresStay(t: Tally, child: Dn, root: Dn, refused: bool)
    requires child != []
    ensures ChildStep(t, child, root, refused).failed >= t.failed
  {
  }

  lemma SiblingsInFront(children: seq<Dn>, legacy: Dn)
    requires Siblings(children, legacy) && children != []
    ensures Siblings(children[..|children| - 1], legacy)
  {
  }

  lemma NoneMoved(m: Tree, root: Dn)
    ensures AllMoved(m, [], root)
  {
  }

  // ---- The migration -------------------------------------------------------------------

  /** Every legacy child is, with everything below it, where it was or at its target, or has a namesake that was under
      the new root before; nothing that was under the new root changed, unless the legacy root is there too and above
      it. */
  ghost predicate NothingLost(m: Tree, m': Tree, legacy: Dn, root: Dn)
  {
    && ProtectedInPlace(m, m', legacy, root)
    && AllAccounted(m, m', legacy, root)
  }

  ghost predicate ProtectedInPlace(m: Tree, m': Tree, legacy: Dn, root: Dn)
  {
    forall d | d in m && Under(d, root) && !(Under(legacy, root) && Under(d, legacy)) :: d in m' && m'[d] == m[d]
  }

  ghost predicate AllAccounted(m: Tree, m': Tree, legacy: Dn, root: Dn)
  {
    forall c | c in m && IsChild(c, legacy) :: Accounted(m, m', c, root)
  }

  /** A child whose target is the legacy root itself, which lies directly below the new root. */
  predicate HasTwin(m: Tree, legacy: Dn, root: Dn)
  {
    IsChild(legacy, root) && [legacy[0]] + legacy in m
  }

  function NamesIn(m: Tree, base: Dn): set<Rdn>
  {
    set d | d in m && IsChild(d, base) :: d[0]
  }

  predicate Childless(m: Tree, base: Dn) { forall d | d in m :: !IsChild(d, base) }

  function Willing(n: nat): (refused: seq<bool>)
    ensures |refused| == n
  {
    seq(n, _ => false)
  }

  /** The directory after a migration; `refused` and `rootRefused` say which deletes and moves the server refuses. */
  function MigratedWith(m: Tree, legacy: Dn, root: Dn, children: seq<Dn>, refused: seq<bool>, rootRefused: bool): Tree
    requires |refused| == |children| && Proper(children)
  {
    if legacy == root || legacy !in m then m else
    var m' := ChildSteps(m, children, root, refused).tree;
    if Childless(m', legacy) && !rootRefused then Delete(m', legacy).tree else m'
  }

  /** The directory after a migration that no refusal disturbs. */
  function Migrated(m: Tree, legacy: Dn, root: Dn, children: seq<Dn>): Tree
    requires Proper(children)
  {
    MigratedWith(m, legacy, root, children, Willing(|children|), false)
  }

  lemma ListedAreSiblings(children: seq<Dn>, m: Tree, legacy: Dn)
    requires Lists(children, m, legacy)
    ensures Siblings(children, legacy) && Proper(children)
  {
    forall i | 0 <= i < |children| ensures IsChild(children[i], legacy) { assert children[i] in children; }
  }

  /** Deleting the emptied legacy root loses something if and only if a child counted as its duplicate. */
  lemma RootGoesLast(m: Tree, m': Tree, legacy: Dn, root: Dn)
    requires NothingLost(m, m', legacy, root) && legacy != root && legacy in m && Childless(m', legacy)
    ensures NothingLost(m, m' - {legacy}, legacy, root) <==> !HasTwin(m, legacy, root)
  {
    var gone := m' - {legacy};
    assert ProtectedInPlace(m, gone, legacy, root) by { assert legacy[0..] == legacy; }
    forall c | c in m && IsChild(c, legacy) ensures Accounted(m, gone, c, root) <==> Target(c, root) != legacy {
      AccountSurvivesRoot(m, m', c, legacy, root);
    }
    TwinTargetsLegacy(m, legacy, root);
  }

  lemma TwinTargetsLegacy(m: Tree, legacy: Dn, root: Dn)
    ensures HasTwin(m, legacy, root) <==> exists c :: c in m && IsChild(c, legacy) && Target(c, root) == legacy
  {
    if HasTwin(m, legacy, root) {
      var c := [legacy[0]] + legacy;
      assert c[1..] == legacy && c in m && IsChild(c, legacy) && Target(c, root) == legacy;
    }
    if c :| c in m && IsChild(c, legacy) && Target(c, root) == legacy {
      assert legacy[1..] == root && legacy[0] == c[0] && c == [c[0]] + legacy;
    }
  }

  lemma AccountSurvivesRoot(m: Tree, m': Tree, c: Dn, legacy: Dn, root: Dn)
    requires c in m && IsChild(c, legacy) && Accounted(m, m', c, root) && legacy in m && Childless(m', legacy)
    ensures Accounted(m, m' - {legacy}, c, root) <==> Target(c, root) != legacy
  {
    var target, gone := Target(c, root), m' - {legacy};
    assert c[0..] == c && target[0..] == target && legacy[0..] == legacy;
    assert c !in m';
    if target == legacy {
      assert !InPlace(m, gone, c) && !Vacant(m, target);
    } else if Vacant(m, target) && Relocated(m, m', c, target) {
      assert Relocated(m, gone, c, target);
    }
  }

  lemma NoFailureUnitesTheNames(m: Tree, children: seq<Dn>, legacy: Dn, root: Dn, refused: seq<bool>)
    requires Lists(children, m, legacy) && |refused| == |children| && legacy != root && legacy in m
    requires Proper(children) && ChildSteps(m, children, root, refused).failed == 0
    ensures var m' := ChildSteps(m, children, root, refused).tree;
      Childless(m', legacy) && United(m, m' - {legacy}, legacy, root)
  {
    var m' := ChildSteps(m, children, root, refused).tree;
    ListedAreSiblings(children, m, legacy);
    NoFailureMovesAll(m, children, legacy, root, refused);
    StepsAddOnlyAtTargets(m, children, legacy, root, refused);
    forall d | d in m' ensures !IsChild(d, legacy) {
      NoLegacyChildIsLeft(m, m', children, d, legacy, root);
    }
    forall name ensures name in NamesIn(m' - {legacy}, root) <==>
      name in NamesIn(m, root) + NamesIn(m, legacy) && [name] + root != legacy
    {
      TargetStays(m, children, legacy, root, refused, name);
      NameMoves(m, m', children, name, legacy, root);
    }
  }

  /** The new root holds the names of both, except that of the legacy root itself. */
  ghost predicate United(m: Tree, m': Tree, legacy: Dn, root: Dn)
  {
    forall name :: name in NamesIn(m', root) <==>
      name in NamesIn(m, root) + NamesIn(m, legacy) && [name] + root != legacy
  }

  lemma NoLegacyChildIsLeft(m: Tree, m': Tree, children: seq<Dn>, d: Dn, legacy: Dn, root: Dn)
    requires Lists(children, m, legacy) && Siblings(children, legacy) && Proper(children) && legacy != root
    requires AllMoved(m', children, root) && NewOnlyAtTargets(m, m', children, legacy, root)
    requires d in m'
    ensures !IsChild(d, legacy)
  {
    forall i | 0 <= i < |children| ensures children[i] != d { assert HasMoved(m', children[i], root); }
    if d !in m && IsChild(d, legacy) {
      var i :| 0 <= i < |children| && ArrivedAt(d, children[i], legacy, root);
      NoneArrivesAtLegacy(d, children[i], legacy, root);
    }
  }

  lemma NameMoves(m: Tree, m': Tree, children: seq<Dn>, name: Rdn, legacy: Dn, root: Dn)
    requires Lists(children, m, legacy) && Siblings(children, legacy) && Proper(children)
    requires AllMoved(m', children, root) && NewOnlyAtTargets(m, m', children, legacy, root)
    requires [name] + root in m ==> [name] + root in m'
    ensures name in NamesIn(m' - {legacy}, root) <==>
      name in NamesIn(m, root) + NamesIn(m, legacy) && [name] + root != legacy
  {
    OnlyBearer(m, name, legacy);
    OnlyBearer(m, name, root);
    OnlyBearer(m' - {legacy}, name, root);
    NameArrives(m, m', children, name, legacy, root);
    NameCameFrom(m, m', children, name, legacy, root);
  }

  lemma NameArrives(m: Tree, m': Tree, children: seq<Dn>, name: Rdn, legacy: Dn, root: Dn)
    requires Lists(children, m, legacy) && Siblings(children, legacy) && Proper(children)
    requires AllMoved(m', children, root)
    ensures [name] + legacy in m ==> [name] + root in m'
  {
    var here := [name] + legacy;
    assert here[1..] == legacy && here[0] == name;
    if here in m {
      assert IsChild(here, legacy);
      var i :| 0 <= i < |children| && children[i] == here;
      assert HasMoved(m', children[i], root);
    }
  }

  lemma NameCameFrom(m: Tree, m': Tree, children: seq<Dn>, name: Rdn, legacy: Dn, root: Dn)
    requires Lists(children, m, legacy) && Siblings(children, legacy) && Proper(children)
    requires NewOnlyAtTargets(m, m', children, legacy, root)
    ensures [name] + root in m' ==> [name] + root in m || [name] + legacy in m
  {
    var there := [name] + root;
    if there in m' && there !in m {
      var i :| 0 <= i < |children| && ArrivedAt(there, children[i], legacy, root);
      var child := children[i];
      assert IsChild(child, legacy) && child in children;
      assert child == [child[0]] + legacy;
      assert |there| == |Target(child, root)|;
      assert there[0] == Target(child, root)[0] == child[0];
    }
  }

  lemma OnlyBearer(m: Tree, name: Rdn, base: Dn)
    ensures name in NamesIn(m, base) <==> [name] + base in m
  {
    if name in NamesIn(m, base) {
      var d :| d in m && IsChild(d, base) && d[0] == name;
      assert d == [name] + base;
    }
    if [name] + base in m {
      assert IsChild([name] + base, base) by { assert ([name] + base)[1..] == base; }
      assert ([name] + base)[0] == name;
    }
  }

  // ---- The directory stays a tree ------------------------------------------------------

  lemma StepKeepsTheTree(t: Tally, child: Dn, root: Dn, refused: bool, base: Dn)
    requires child != [] && child != base && IsTree(t.tree, base)
    ensures IsTree(ChildStep(t, child, root, refused).tree, base)
  {
    hide IsTree, Delete, ModifyDn;
    DeleteInWords(t.tree, base, child);
    ModifyDnInWords(t.tree, base, child, root);
  }

  /** Whatever is refused, a migration leaves a directory information tree. */
  lemma MigrationKeepsTheTree(m: Tree, legacy: Dn, root: Dn, children: seq<Dn>, refused: seq<bool>, rootRefused: bool,
                              base: Dn)
    requires |refused| == |children| && Proper(children) && IsTree(m, base) && legacy != base
    requires forall i | 0 <= i < |children| :: children[i] in m && IsChild(children[i], legacy)
    ensures IsTree(MigratedWith(m, legacy, root, children, refused, rootRefused), base)
  {
    hide IsTree;
    if legacy != root && legacy in m {
      assert base !in children by { NoChildIsTheBase(m, base, children, legacy); }
      StepsKeepTheTree(m, children, root, refused, base);
      DeleteInWords(ChildSteps(m, children, root, refused).tree, base, legacy);
    }
  }

  lemma NoChildIsTheBase(m: Tree, base: Dn, children: seq<Dn>, legacy: Dn)
    requires IsTree(m, base) && legacy in m
    requires forall i | 0 <= i < |children| :: IsChild(children[i], legacy)
    ensures base !in children
  {
  }

  lemma {:induction false} StepsKeepTheTree(m: Tree, children: seq<Dn>, root: Dn, refused: seq<bool>, base: Dn)
    requires |refused| == |children| && Proper(children) && IsTree(m, base) && base !in children
    ensures IsTree(ChildSteps(m, children, root, refused).tree, base)
  {
    hide IsTree, ChildStep;
    if children != [] {
      var k := |children| - 1;
      StepsKeepTheTree(m, children[..k], root, refused[..k], base);
      StepKeepsTheTree(ChildSteps(m, children[..k], root, refused[..k]), children[k], root, refused[k], base);
    }
  }

  // ---- Which runs complete -------------------------------------------------------------

  /** A willing server would delete or move the child. */
  ghost predicate CanGo(m: Tree, child: Dn, root: Dn)
    requires child != []
  {
    && child in m
    && if Target(child, root) in m then IsLeaf(m, child)
       else root in m && !Under(root, child) && Vacant(m, Target(child, root))
  }

  lemma SucceedsIff(t: Tally, child: Dn, root: Dn, refused: bool)
    requires child != []
    ensures ChildStep(t, child, root, refused).failed == t.failed <==> !refused && CanGo(t.tree, child, root)
  {
  }

  /** A child that can go has not the new root below it. */
  lemma RootIsNotBelow(m: Tree, child: Dn, legacy: Dn, root: Dn)
    requires IsChild(child, legacy) && legacy != root && CanGo(m, child, root)
    ensures !Under(root, child)
  {
    var target := Target(child, root);
    assert target[1..] == root && Under(target, root) && child[1..] == legacy;
    if Under(root, child) { UnderIsTransitive(target, root, child); }
  }

  /** Nothing new lies below a child that can go, and nothing new fills its vacant target. */
  lemma NothingNew(m: Tree, t: Tree, front: seq<Dn>, child: Dn, legacy: Dn, root: Dn, d: Dn)
    requires Siblings(front, legacy) && Proper(front) && IsChild(child, legacy) && child !in front && legacy != root
    requires NewOnlyAtTargets(m, t, front, legacy, root) && d in t && d !in m
    ensures !Under(d, Target(child, root))
    ensures Under(d, child) ==> Under(root, child)
  {
    var i :| 0 <= i < |front| && ArrivedAt(d, front[i], legacy, root);
    TargetsDiffer(child, front[i], legacy, root);
    TargetsDiffer(front[i], child, legacy, root);
    if Under(d, Target(child, root)) { BasesOfOneNameNest(d, Target(child, root), Target(front[i], root)); }
    if Under(d, child) { TargetApart(d, child, front[i][0], legacy, root); }
  }

  lemma RootStays(m: Tree, front: seq<Dn>, legacy: Dn, root: Dn, refused: seq<bool>)
    requires |refused| == |front| && Siblings(front, legacy) && Proper(front) && legacy != root && legacy in m
    ensures root in ChildSteps(m, front, root, refused).tree <==> root in m
  {
    assert root[0..] == root && (Under(root, legacy) && Under(legacy, root) ==> root == legacy);
    ProtectedStays(m, front, legacy, root, refused, root);
    StepsAddOnlyAtTargets(m, front, legacy, root, refused);
    forall i | 0 <= i < |front| ensures !ArrivedAt(root, front[i], legacy, root) {
      assert |Target(front[i], root)| > |root|;
    }
  }

  lemma NewEntryNeedsRoot(t: Tally, child: Dn, root: Dn, refused: bool, d: Dn)
    requires child != [] && d !in t.tree && d in ChildStep(t, child, root, refused).tree
    ensures root in t.tree
  {
  }

  /** Entries arrive only if the new root was there. */
  lemma {:induction false} NewEntriesNeedRoot(m: Tree, children: seq<Dn>, legacy: Dn, root: Dn, refused: seq<bool>,
                                              d: Dn)
    requires |refused| == |children| && Siblings(children, legacy) && Proper(children) && legacy != root && legacy in m
    requires d !in m && d in ChildSteps(m, children, root, refused).tree
    ensures root in m
  {
    hide ChildStep;
    if children != [] {
      var k := |children| - 1;
      var t := ChildSteps(m, children[..k], root, refused[..k]);
      if d in t.tree {
        NewEntriesNeedRoot(m, children[..k], legacy, root, refused[..k], d);
      } else {
        NewEntryNeedsRoot(t, children[k], root, refused[k], d);
        RootStays(m, children[..k], legacy, root, refused[..k]);
      }
    }
  }

  /** Whether a child can go is not changed by the steps before it. */
  lemma CanGoStays(m: Tree, front: seq<Dn>, child: Dn, legacy: Dn, root: Dn, refused: seq<bool>)
    requires |refused| == |front| && Siblings(front, legacy) && Proper(front) && legacy != root && legacy in m
    requires IsChild(child, legacy) && child !in front && child in m
    ensures CanGo(ChildSteps(m, front, root, refused).tree, child, root) <==> CanGo(m, child, root)
  {
    var t := ChildSteps(m, front, root, refused).tree;
    NextChildIsReady(m, front, child, legacy, root, refused);
    TargetStays(m, front, legacy, root, refused, child[0]);
    StepsAddOnlyAtTargets(m, front, legacy, root, refused);
    RootStays(m, front, legacy, root, refused);
    assert child[0..] == child && Under(child, child);
    forall d | d in t && d !in m ensures !Under(d, Target(child, root)) && (Under(d, child) ==> Under(root, child)) {
      NothingNew(m, t, front, child, legacy, root, d);
    }
    if CanGo(m, child, root) { RootIsNotBelow(m, child, legacy, root); }
  }

  ghost predicate AllGo(m: Tree, children: seq<Dn>, root: Dn, refused: seq<bool>)
    requires |refused| == |children| && Proper(children)
  {
    forall i | 0 <= i < |children| :: !refused[i] && CanGo(m, children[i], root)
  }

  /** No child fails exactly when the server refuses none and each can go from the directory as it was. */
  lemma {:induction false} NoneFailsIff(m: Tree, children: seq<Dn>, legacy: Dn, root: Dn, refused: seq<bool>)
    requires |refused| == |children| && Siblings(children, legacy) && Proper(children) && legacy != root && legacy in m
    requires forall i | 0 <= i < |children| :: children[i] in m
    ensures ChildSteps(m, children, root, refused).failed == 0 <==> AllGo(m, children, root, refused)
  {
    hide CanGo, ChildStep;
    if children != [] {
      var k := |children| - 1;
      var front, child := children[..k], children[k];
      assert child !in front;
      NoneFailsIff(m, front, legacy, root, refused[..k]);
      var t := ChildSteps(m, front, root, refused[..k]);
      SucceedsIff(t, child, root, refused[k]);
      FailuresStay(t, child, root, refused[k]);
      CanGoStays(m, front, child, legacy, root, refused[..k]);
      assert AllGo(m, children, root, refused) <==>
        AllGo(m, front, root, refused[..k]) && !refused[k] && CanGo(m, child, root);
    }
  }

  // ---- What the counters count ---------------------------------------------------------

  /** The child has a namesake under the new root, and nothing below it. */
  ghost predicate IsDuplicate(m: Tree, child: Dn, root: Dn)
    requires child != []
  {
    [child[0]] + root in m && child in m && forall d | d in m && Under(d, child) :: d == child
  }

  /** The new root is there, not below the child, and has nothing of the child's name. */
  ghost predicate IsMovable(m: Tree, child: Dn, root: Dn)
    requires child != []
  {
    child in m && root in m && !Under(root, child) && forall d | d in m :: !Under(d, [child[0]] + root)
  }

  /** The places of the children that are deleted, respectively moved, unless refused. */
  ghost function Duplicates(m: Tree, children: seq<Dn>, root: Dn, refused: seq<bool>): set<int>
    requires |refused| == |children| && Proper(children)
  {
    set i | 0 <= i < |children| && !refused[i] && IsDuplicate(m, children[i], root)
  }

  ghost function Movables(m: Tree, children: seq<Dn>, root: Dn, refused: seq<bool>): set<int>
    requires |refused| == |children| && Proper(children)
  {
    set i | 0 <= i < |children| && !refused[i] && IsMovable(m, children[i], root)
  }

  lemma StepInWords(t: Tally, child: Dn, root: Dn, refused: bool)
    requires child != []
    ensures var t' := ChildStep(t, child, root, refused);
      && t'.deleted == t.deleted + (if !refused && IsDuplicate(t.tree, child, root) then 1 else 0)
      && t'.moved == t.moved + (if !refused && IsMovable(t.tree, child, root) then 1 else 0)
  {
    var target := [child[0]] + root;
    assert target[0..] == target;
  }

  lemma GoneIsEither(m: Tree, child: Dn, root: Dn)
    requires child != []
    ensures IsDuplicate(m, child, root) <==> CanGo(m, child, root) && [child[0]] + root in m
    ensures IsMovable(m, child, root) <==> CanGo(m, child, root) && [child[0]] + root !in m
  {
    var target := [child[0]] + root;
    assert target[0..] == target;
  }

  lemma DuplicateStays(m: Tree, front: seq<Dn>, child: Dn, legacy: Dn, root: Dn, refused: seq<bool>)
    requires |refused| == |front| && Siblings(front, legacy) && Proper(front) && legacy != root && legacy in m
    requires IsChild(child, legacy) && child !in front && child in m
    ensures var t := ChildSteps(m, front, root, refused).tree;
      && (IsDuplicate(t, child, root) <==> IsDuplicate(m, child, root))
      && (IsMovable(t, child, root) <==> IsMovable(m, child, root))
  {
    hide CanGo, IsDuplicate, IsMovable;
    var t, target := ChildSteps(m, front, root, refused).tree, [child[0]] + root;
    CanGoStays(m, front, child, legacy, root, refused);
    GoneIsEither(m, child, root);
    GoneIsEither(t, child, root);
    TargetStays(m, front, legacy, root, refused, child[0]);
    StepsAddOnlyAtTargets(m, front, legacy, root, refused);
    assert Under(target, target) by { assert target[0..] == target; }
    if target in t && target !in m { NothingNew(m, t, front, child, legacy, root, target); }
  }

  /** The counters count the duplicates, the movable children and the rest, of the directory as it was. */
  lemma {:induction false} CountersInWords(m: Tree, children: seq<Dn>, legacy: Dn, root: Dn, refused: seq<bool>)
    requires |refused| == |children| && Siblings(children, legacy) && Proper(children) && legacy != root && legacy in m
    requires forall i | 0 <= i < |children| :: children[i] in m
    ensures var t := ChildSteps(m, children, root, refused);
      && t.deleted == |Duplicates(m, children, root, refused)|
      && t.moved == |Movables(m, children, root, refused)|
      && t.failed == |children| - t.deleted - t.moved
  {
    hide ChildStep, IsDuplicate, IsMovable, Duplicates, Movables;
    EveryChildIsCounted(m, children, root, refused);
    if children != [] {
      var k := |children| - 1;
      var front, child := children[..k], children[k];
      assert child !in front;
      CountersInWords(m, front, legacy, root, refused[..k]);
      StepInWords(ChildSteps(m, front, root, refused[..k]), child, root, refused[k]);
      DuplicateStays(m, front, child, legacy, root, refused[..k]);
      NextPlace(m, children, root, refused);
    } else {
      NoPlaces(m, root);
    }
  }

  lemma NoPlaces(m: Tree, root: Dn)
    ensures Duplicates(m, [], root, []) == {} && Movables(m, [], root, []) == {}
  {
  }

  lemma NextPlace(m: Tree, children: seq<Dn>, root: Dn, refused: seq<bool>)
    requires |refused| == |children| && children != [] && Proper(children)
    ensures var k := |children| - 1;
      && |Duplicates(m, children, root, refused)| == |Duplicates(m, children[..k], root, refused[..k])| +
           (if !refused[k] && IsDuplicate(m, children[k], root) then 1 else 0)
      && |Movables(m, children, root, refused)| == |Movables(m, children[..k], root, refused[..k])| +
           (if !refused[k] && IsMovable(m, children[k], root) then 1 else 0)
  {
    hide IsDuplicate, IsMovable;
    var k := |children| - 1;
    var front, back := children[..k], refused[..k];
    forall i ensures i in Duplicates(m, children, root, refused) <==>
        i in Duplicates(m, front, root, back) || (i == k && !refused[k] && IsDuplicate(m, children[k], root))
    {
      if 0 <= i < k { assert front[i] == children[i] && back[i] == refused[i]; }
    }
    forall i ensures i in Movables(m, children, root, refused) <==>
        i in Movables(m, front, root, back) || (i == k && !refused[k] && IsMovable(m, children[k], root))
    {
      if 0 <= i < k { assert front[i] == children[i] && back[i] == refused[i]; }
    }
    OneMorePlace(Duplicates(m, front, root, back), Duplicates(m, children, root, refused), k,
                 !refused[k] && IsDuplicate(m, children[k], root));
    OneMorePlace(Movables(m, front, root, back), Movables(m, children, root, refused), k,
                 !refused[k] && IsMovable(m, children[k], root));
  }

  lemma OneMorePlace(a: set<int>, b: set<int>, k: int, more: bool)
    requires k !in a && forall i :: i in b <==> i in a || (i == k && more)
    ensures |b| == |a| + if more then 1 else 0
  {
    var all := if more then a + {k} else a;
    forall i | i in b ensures i in all {
    }
    forall i | i in all ensures i in b {
    }
    assert b == all;
  }

  // ---- What becomes of a child ---------------------------------------------------------

  ghost predicate Gone(m: Tree, child: Dn, root: Dn)
    requires child != []
  {
    Target(child, root) in m && !Under(root, child) && forall d | d in m :: !Under(d, child)
  }

  /** The child went, with everything below it, and its target is there; or it is in place, with everything below it. */
  ghost predicate Resolved(m: Tree, m': Tree, child: Dn, root: Dn)
    requires child != []
  {
    Gone(m', child, root) || InPlace(m, m', child)
  }

  lemma GoneStep(t: Tally, child: Dn, legacy: Dn, root: Dn, refused: bool)
    requires IsChild(child, legacy) && legacy != root && legacy in t.tree
    requires ChildStep(t, child, root, refused).failed == t.failed
    ensures Gone(ChildStep(t, child, root, refused).tree, child, root)
  {
    SucceedsIff(t, child, root, refused);
    RootIsNotBelow(t.tree, child, legacy, root);
    SuccessMovesTheChild(t, child, legacy, root, refused);
    StepIsLocal(t, child, root, refused);
    var m', target := ChildStep(t, child, root, refused).tree, Target(child, root);
    forall d | d in m' ensures !Under(d, child) {
      if Under(d, child) {
        if target !in t.tree && Under(d, target) { TargetApart(d, child, child[0], legacy, root); }
      }
    }
  }

  lemma StepKeepsResolved(m: Tree, t: Tally, child: Dn, other: Dn, legacy: Dn, root: Dn, refused: bool)
    requires IsChild(child, legacy) && IsChild(other, legacy) && child != other && legacy != root && legacy in t.tree
    requires Resolved(m, t.tree, other, root)
    ensures Resolved(m, ChildStep(t, child, root, refused).tree, other, root)
  {
    var m' := ChildStep(t, child, root, refused).tree;
    StepIsLocal(t, child, root, refused);
    if m' != t.tree {
      if Under(root, child) { RootBelowChildStays(t, child, root, refused); }
      if InPlace(m, t.tree, other) {
        forall d | d in m && Under(d, other) ensures !Under(d, child) {
          if Under(d, child) { BasesOfOneNameNest(d, child, other); }
        }
        assert InPlace(m, m', other);
      } else {
        TargetIsNotBelow(Target(other, root), child, other[0], legacy, root);
        forall d | d in m' ensures !Under(d, other) {
          if d !in t.tree && Under(d, other) { TargetApart(d, other, child[0], legacy, root); }
        }
        assert Gone(m', other, root);
      }
    }
  }

  lemma {:induction false} EveryChildIsResolved(m: Tree, children: seq<Dn>, legacy: Dn, root: Dn, refused: seq<bool>)
    requires |refused| == |children| && Siblings(children, legacy) && Proper(children) && legacy != root && legacy in m
    ensures forall i | 0 <= i < |children| ::
      Resolved(m, ChildSteps(m, children, root, refused).tree, children[i], root)
  {
    hide ChildStep, Gone, InPlace;
    if children != [] {
      var k := |children| - 1;
      var front, child := children[..k], children[k];
      assert child !in front;
      EveryChildIsResolved(m, front, legacy, root, refused[..k]);
      OutsideStays(m, front, legacy, root, refused[..k], legacy);
      var t := ChildSteps(m, front, root, refused[..k]);
      forall i | 0 <= i < k ensures Resolved(m, ChildStep(t, child, root, refused[k]).tree, children[i], root) {
        assert front[i] == children[i];
        StepKeepsResolved(m, t, child, children[i], legacy, root, refused[k]);
      }
      LaterChildIsInPlace(m, front, legacy, root, refused[..k], child);
      OwnStepResolves(m, t, child, legacy, root, refused[k]);
    }
  }

  lemma OwnStepResolves(m: Tree, t: Tally, child: Dn, legacy: Dn, root: Dn, refused: bool)
    requires IsChild(child, legacy) && legacy != root && legacy in t.tree && InPlace(m, t.tree, child)
    ensures Resolved(m, ChildStep(t, child, root, refused).tree, child, root)
  {
    if ChildStep(t, child, root, refused).failed == t.failed { GoneStep(t, child, legacy, root, refused); }
  }

  /** A name below no child stays. */
  lemma {:induction false} ApartStays(m: Tree, children: seq<Dn>, root: Dn, refused: seq<bool>, d: Dn)
    requires |refused| == |children| && Proper(children)
    requires forall i | 0 <= i < |children| :: !Under(d, children[i])
    ensures d in m ==>
      d in ChildSteps(m, children, root, refused).tree && ChildSteps(m, children, root, refused).tree[d] == m[d]
  {
    if children != [] {
      var k := |children| - 1;
      ApartStays(m, children[..k], root, refused[..k], d);
      StepIsLocal(ChildSteps(m, children[..k], root, refused[..k]), children[k], root, refused[k]);
    }
  }

  // ---- The deletion of the legacy root -------------------------------------------------

  /** Everything below the legacy root is below one of its children. */
  ghost predicate NoOrphans(m: Tree, legacy: Dn)
  {
    forall d | d in m && Under(d, legacy) && d != legacy :: exists c :: c in m && IsChild(c, legacy) && Under(d, c)
  }

  /** Every entry has a superior, as section 3.2 of RFC 4512 demands of a directory information tree. */
  ghost predicate Closed(m: Tree, base: Dn)
  {
    forall d | d in m && Under(d, base) && d != base :: d != [] && d[1..] in m
  }

  lemma {:induction false} AncestorIsAChild(m: Tree, legacy: Dn, d: Dn)
    requires Closed(m, legacy) && d in m && Under(d, legacy) && d != legacy
    ensures exists c :: c in m && IsChild(c, legacy) && Under(d, c)
    decreases |d|
  {
    assert d[0..] == d && |d| > |legacy|;
    assert d[1..][|d| - 1 - |legacy|..] == legacy;
    if d[1..] == legacy {
      assert IsChild(d, legacy) && Under(d, d);
    } else {
      AncestorIsAChild(m, legacy, d[1..]);
      var c :| c in m && IsChild(c, legacy) && Under(d[1..], c);
      assert d[|d| - |c|..] == c;
    }
  }

  /** In a directory information tree there are no orphans. */
  lemma ClosedHasNoOrphans(m: Tree, legacy: Dn)
    requires Closed(m, legacy)
    ensures NoOrphans(m, legacy)
  {
    forall d | d in m && Under(d, legacy) && d != legacy
      ensures exists c :: c in m && IsChild(c, legacy) && Under(d, c)
    {
      AncestorIsAChild(m, legacy, d);
    }
  }

  /** Once all children have gone, the legacy root can be deleted exactly when there were no orphans. */
  lemma RootIsLeafIff(m: Tree, children: seq<Dn>, legacy: Dn, root: Dn, refused: seq<bool>)
    requires |refused| == |children| && Lists(children, m, legacy) && Siblings(children, legacy) && Proper(children)
    requires legacy != root && legacy in m && AllGo(m, children, root, refused)
    ensures IsLeaf(ChildSteps(m, children, root, refused).tree, legacy) <==> NoOrphans(m, legacy)
  {
    var m' := ChildSteps(m, children, root, refused).tree;
    if NoOrphans(m, legacy) {
      forall d | d in m' && Under(d, legacy) ensures d == legacy {
        if d != legacy { NothingIsLeftBelow(m, children, legacy, root, refused, d); }
      }
    } else {
      var d :| d in m && Under(d, legacy) && d != legacy &&
        !exists c :: c in m && IsChild(c, legacy) && Under(d, c);
      forall i | 0 <= i < |children| ensures !Under(d, children[i]) { assert children[i] in children; }
      ApartStays(m, children, root, refused, d);
    }
  }

  lemma NothingIsLeftBelow(m: Tree, children: seq<Dn>, legacy: Dn, root: Dn, refused: seq<bool>, d: Dn)
    requires |refused| == |children| && Lists(children, m, legacy) && Siblings(children, legacy) && Proper(children)
    requires legacy != root && legacy in m && AllGo(m, children, root, refused) && NoOrphans(m, legacy)
    requires Under(d, legacy) && d != legacy
    ensures d !in ChildSteps(m, children, root, refused).tree
  {
    hide CanGo, NewOnlyAtTargets, ChildSteps, ArrivedAt;
    var m' := ChildSteps(m, children, root, refused).tree;
    if d in m {
      var c :| c in m && IsChild(c, legacy) && Under(d, c);
      var i :| 0 <= i < |children| && children[i] == c;
      AllAreGone(m, children, legacy, root, refused, i);
    } else if d in m' {
      StepsAddOnlyAtTargets(m, children, legacy, root, refused);
      NewBelowLegacy(m, m', children, legacy, root, d);
      NewEntriesNeedRoot(m, children, legacy, root, refused, d);
      RootIsNoOrphan(m, children, legacy, root, refused);
    }
  }

  lemma RootIsNoOrphan(m: Tree, children: seq<Dn>, legacy: Dn, root: Dn, refused: seq<bool>)
    requires |refused| == |children| && Lists(children, m, legacy) && Proper(children) && legacy != root
    requires AllGo(m, children, root, refused) && NoOrphans(m, legacy) && root in m
    ensures !Under(root, legacy)
  {
    hide CanGo;
    if Under(root, legacy) {
      var c :| c in m && IsChild(c, legacy) && Under(root, c);
      var i :| 0 <= i < |children| && children[i] == c;
      RootIsNotBelow(m, children[i], legacy, root);
    }
  }

  lemma AllAreGone(m: Tree, children: seq<Dn>, legacy: Dn, root: Dn, refused: seq<bool>, i: nat)
    requires |refused| == |children| && Lists(children, m, legacy) && Siblings(children, legacy) && Proper(children)
    requires legacy != root && legacy in m && AllGo(m, children, root, refused) && i < |children|
    ensures Gone(ChildSteps(m, children, root, refused).tree, children[i], root)
  {
    hide CanGo, ChildSteps;
    forall j | 0 <= j < |children| ensures children[j] in m { assert children[j] in children; }
    NoneFailsIff(m, children, legacy, root, refused);
    NoFailureMovesAll(m, children, legacy, root, refused);
    EveryChildIsResolved(m, children, legacy, root, refused);
    assert HasMoved(ChildSteps(m, children, root, refused).tree, children[i], root) && children[i][0..] == children[i];
  }

  /** Something new below the legacy root shows that the new root is there, and was before. */
  lemma NewBelowLegacy(m: Tree, m': Tree, children: seq<Dn>, legacy: Dn, root: Dn, d: Dn)
    requires Siblings(children, legacy) && Proper(children) && legacy != root
    requires NewOnlyAtTargets(m, m', children, legacy, root) && d in m' && d !in m && Under(d, legacy)
    ensures Under(root, legacy) && (exists i :: 0 <= i < |children| && ArrivedAt(d, children[i], legacy, root))
  {
    var i :| 0 <= i < |children| && ArrivedAt(d, children[i], legacy, root);
    var target := Target(children[i], root);
    if |target| <= |legacy| {
      BasesOfOneNameNest(d, target, legacy);
    } else {
      BasesOfOneNameNest(d, legacy, target);
      TargetBelowLegacy(children[i][0], legacy, root);
    }
  }

  /** A run completes: the server refuses nothing, every child can go, and nothing else is below the legacy root. */
  ghost predicate Completes(m: Tree, children: seq<Dn>, legacy: Dn, root: Dn, refused: seq<bool>, rootRefused: bool)
    requires |refused| == |children| && Proper(children)
  {
    AllGo(m, children, root, refused) && NoOrphans(m, legacy) && !rootRefused
  }

  // ---- A second migration --------------------------------------------------------------

  /** Treating the child would change nothing. */
  ghost predicate Stuck(m: Tree, child: Dn, root: Dn)
    requires child != []
  {
    child in m ==>
      if Target(child, root) in m then !IsLeaf(m, child)
      else root !in m || Under(root, child) || !Vacant(m, Target(child, root))
  }

  lemma OwnStepSticks(t: Tally, child: Dn, legacy: Dn, root: Dn)
    requires IsChild(child, legacy) && legacy != root
    ensures Stuck(ChildStep(t, child, root, false).tree, child, root)
  {
    if ChildStep(t, child, root, false).failed == t.failed {
      SuccessMovesTheChild(t, child, legacy, root, false);
    }
  }

  lemma StuckStays(t: Tally, child: Dn, other: Dn, legacy: Dn, root: Dn)
    requires IsChild(child, legacy) && IsChild(other, legacy) && child != other && legacy != root
    requires legacy in t.tree && root in t.tree && Stuck(t.tree, other, root)
    ensures Stuck(ChildStep(t, child, root, false).tree, other, root)
  {
    var m, m' := t.tree, ChildStep(t, child, root, false).tree;
    var there := Target(other, root);
    StepIsLocal(t, child, root, false);
    if m' != m && other in m' {
      if Under(root, child) { RootBelowChildStays(t, child, root, false); }
      NoneArrivesAtLegacy(other, child, legacy, root);
      TargetsDiffer(other, child, legacy, root);
      TargetIsNotBelow(there, child, other[0], legacy, root);
      if there in m {
        forall d | Under(d, other) ensures !Under(d, child) {
          if Under(d, child) { BasesOfOneNameNest(d, child, other); }
        }
      } else if !Under(root, other) {
        OccupiedStays(m, m', child, other[0], legacy, root);
      }
    }
  }

  lemma OccupiedStays(m: Tree, m': Tree, child: Dn, name: Rdn, legacy: Dn, root: Dn)
    requires IsChild(child, legacy) && legacy != root && legacy in m && !Under(root, child)
    requires forall d :: d in m && !Under(d, child) ==> d in m'
    requires !Vacant(m, [name] + root)
    ensures !Vacant(m', [name] + root)
  {
    var d :| d in m && Under(d, [name] + root);
    if Under(d, child) {
      TargetApart(d, child, name, legacy, root);
      assert legacy in m' by { assert |legacy| < |child|; }
    } else {
      assert d in m';
    }
  }

  lemma {:induction false} FirstMigrationSticks(m: Tree, children: seq<Dn>, legacy: Dn, root: Dn)
    requires Siblings(children, legacy) && Proper(children) && legacy != root && legacy in m && root in m
    ensures root in ChildSteps(m, children, root, Willing(|children|)).tree
    ensures forall i | 0 <= i < |children| ::
      Stuck(ChildSteps(m, children, root, Willing(|children|)).tree, children[i], root)
  {
    hide Stuck, ChildStep;
    assert root[0..] == root && (Under(root, legacy) && Under(legacy, root) ==> root == legacy);
    ProtectedStays(m, children, legacy, root, Willing(|children|), root);
    if children != [] {
      var k := |children| - 1;
      var front, child := children[..k], children[k];
      assert Willing(|children|)[..k] == Willing(k);
      OutsideStays(m, front, legacy, root, Willing(k), legacy);
      var t := ChildSteps(m, front, root, Willing(k));
      FirstMigrationSticks(m, front, legacy, root);
      OwnStepSticks(t, child, legacy, root);
      forall i | 0 <= i < k ensures Stuck(ChildStep(t, child, root, false).tree, children[i], root) {
        assert front[i] == children[i];
        StuckStays(t, child, children[i], legacy, root);
      }
    }
  }

  lemma {:induction false} StuckStepsDoNothing(m: Tree, children: seq<Dn>, root: Dn)
    requires Proper(children)
    requires forall i | 0 <= i < |children| :: children[i] in m && Stuck(m, children[i], root)
    ensures ChildSteps(m, children, root, Willing(|children|)).tree == m
  {
    if children != [] {
      var k := |children| - 1;
      assert Willing(|children|)[..k] == Willing(k);
      StuckStepsDoNothing(m, children[..k], root);
    }
  }

  /** An absent legacy root is not searched. */
  ghost predicate ListsIfPresent(order: seq<Dn>, m: Tree, legacy: Dn) { legacy in m ==> Lists(order, m, legacy) }

  /** Migrating again, in any order, changes nothing. */
  lemma MigrationIsIdempotent(m: Tree, legacy: Dn, root: Dn, order: seq<Dn>, again: seq<Dn>)
    requires Proper(order) && Proper(again) && root in m
    requires legacy != root ==> ListsIfPresent(order, m, legacy)
    requires legacy != root ==> ListsIfPresent(again, Migrated(m, legacy, root, order), legacy)
    ensures Migrated(Migrated(m, legacy, root, order), legacy, root, again) == Migrated(m, legacy, root, order)
  {
    if legacy != root && legacy in m {
      ListedAreSiblings(order, m, legacy);
      FirstMigrationSticks(m, order, legacy, root);
      StepsAddOnlyAtTargets(m, order, legacy, root, Willing(|order|));
      var t := ChildSteps(m, order, root, Willing(|order|)).tree;
      if legacy in Migrated(m, legacy, root, order) {
        assert Migrated(m, legacy, root, order) == t;
        forall i | 0 <= i < |again| ensures again[i] in t && Stuck(t, again[i], root) {
          assert again[i] in again;
          NoNewChild(m, t, order, again[i], legacy, root);
        }
        StuckStepsDoNothing(t, again, root);
      }
    }
  }

  lemma NoNewChild(m: Tree, m': Tree, order: seq<Dn>, c: Dn, legacy: Dn, root: Dn)
    requires Lists(order, m, legacy) && Siblings(order, legacy) && Proper(order) && legacy != root
    requires NewOnlyAtTargets(m, m', order, legacy, root) && c in m' && IsChild(c, legacy)
    ensures c in order
  {
    if c !in m {
      var i :| 0 <= i < |order| && ArrivedAt(c, order[i], legacy, root);
      NoneArrivesAtLegacy(c, order[i], legacy, root);
    }
  }

  /** The second directory holds the first and, besides, only children of the legacy root that have gone from it. */
  ghost predicate Extends(m: Tree, y: Tree, legacy: Dn, root: Dn)
  {
    && (forall d | d in m :: d in y && y[d] == m[d])
    && forall d | d in y && d !in m :: IsChild(d, legacy) && Gone(m, d, root)
  }

  lemma ReturnedChildGoes(m: Tree, t: Tally, child: Dn, legacy: Dn, root: Dn)
    requires Extends(m, t.tree, legacy, root) && IsChild(child, legacy) && child in t.tree && child !in m
    ensures ChildStep(t, child, root, false).tree == t.tree - {child}
  {
    forall d | d in t.tree && Under(d, child) ensures d == child {
      if d !in m { assert d[0..] == d && child[0..] == child; }
    }
  }

  lemma StuckChildStays(m: Tree, t: Tally, child: Dn, legacy: Dn, root: Dn)
    requires Extends(m, t.tree, legacy, root) && legacy != root && root in m
    requires IsChild(child, legacy) && child in m && Stuck(m, child, root)
    ensures ChildStep(t, child, root, false).tree == t.tree
  {
    assert Target(child, root)[1..] == root;
  }

  lemma {:induction false} ReturnedChildrenGo(m: Tree, y: Tree, again: seq<Dn>, legacy: Dn, root: Dn)
    requires Extends(m, y, legacy, root) && legacy != root && root in m
    requires Siblings(again, legacy) && Proper(again) && forall i | 0 <= i < |again| :: again[i] in y
    requires forall c | c in m && IsChild(c, legacy) :: Stuck(m, c, root)
    ensures var z := ChildSteps(y, again, root, Willing(|again|)).tree;
      Extends(m, z, legacy, root) && z.Keys <= y.Keys && forall i | 0 <= i < |again| :: again[i] in z ==> again[i] in m
  {
    hide ChildStep, Gone, Stuck;
    if again != [] {
      var k := |again| - 1;
      var front, child := again[..k], again[k];
      assert Willing(|again|)[..k] == Willing(k);
      ReturnedChildrenGo(m, y, front, legacy, root);
      var t := ChildSteps(y, front, root, Willing(k));
      forall i | 0 <= i < k ensures again[i] in t.tree ==> again[i] in m { assert front[i] == again[i]; }
      if child in m {
        StuckChildStays(m, t, child, legacy, root);
      } else if child in t.tree {
        ReturnedChildGoes(m, t, child, legacy, root);
      } else {
        AbsentChildStays(t, child, root);
      }
    }
  }

  lemma AbsentChildStays(t: Tally, child: Dn, root: Dn)
    requires child != [] && child !in t.tree
    ensures ChildStep(t, child, root, false).tree == t.tree
  {
  }

  /** Children that come back after a migration are gone again after the next. */
  lemma MigrationAbsorbs(m: Tree, y: Tree, again: seq<Dn>, legacy: Dn, root: Dn)
    requires Extends(m, y, legacy, root) && legacy != root && root in m && legacy in m
    requires Lists(again, y, legacy) && Proper(again)
    requires forall c | c in m && IsChild(c, legacy) :: Stuck(m, c, root)
    requires Childless(m, legacy) ==> !IsLeaf(m, legacy)
    ensures Migrated(y, legacy, root, again) == m
  {
    hide ChildStep, Stuck;
    ListedAreSiblings(again, y, legacy);
    forall i | 0 <= i < |again| ensures again[i] in y { assert again[i] in again; }
    ReturnedChildrenGo(m, y, again, legacy, root);
    var z := ChildSteps(y, again, root, Willing(|again|)).tree;
    forall d | d in z && IsChild(d, legacy) ensures d in m { assert d in again; }
    assert z == m;
  }

  /** What a migration leaves of the legacy root is stuck. */
  lemma WhatIsLeftIsStuck(m: Tree, legacy: Dn, root: Dn, order: seq<Dn>)
    requires Proper(order) && Lists(order, m, legacy) && root in m && legacy in m && legacy != root
    ensures var x := Migrated(m, legacy, root, order);
      legacy in x ==>
        && x == ChildSteps(m, order, root, Willing(|order|)).tree
        && (forall c | c in x && IsChild(c, legacy) :: Stuck(x, c, root))
        && (Childless(x, legacy) ==> !IsLeaf(x, legacy))
  {
    hide Stuck, ChildSteps, Vacant, IsLeaf, NewOnlyAtTargets;
    ListedAreSiblings(order, m, legacy);
    FirstMigrationSticks(m, order, legacy, root);
    StepsAddOnlyAtTargets(m, order, legacy, root, Willing(|order|));
    var t := ChildSteps(m, order, root, Willing(|order|)).tree;
    forall c | c in t && IsChild(c, legacy) ensures Stuck(t, c, root) {
      NoNewChild(m, t, order, c, legacy, root);
      var i :| 0 <= i < |order| && order[i] == c;
      assert Stuck(t, order[i], root);
    }
  }

  /** Every entry after the steps is one that was there, or one that was below the legacy root. */
  ghost predicate CameFrom(m: Tree, t: Tree, legacy: Dn)
  {
    forall d | d in t :: (d in m && t[d] == m[d]) || exists e :: e in m && Under(e, legacy) && t[d] == m[e]
  }

  /** An entry after a step was there before, or comes from the child's entries. */
  lemma OriginInStep(t: Tally, child: Dn, root: Dn, refused: bool, d: Dn)
    requires child != [] && d in ChildStep(t, child, root, refused).tree
    ensures var m, m' := t.tree, ChildStep(t, child, root, refused).tree;
      (d in m && m'[d] == m[d]) || exists o :: o in m && Under(o, child) && m'[d] == m[o]
  {
    var m, m' := t.tree, ChildStep(t, child, root, refused).tree;
    if !(d in m && m'[d] == m[d]) {
      var o := Rebase(d, Target(child, root), child);
      assert o in m && Under(o, child) && m'[d] == m[o];
    }
  }

  lemma StepKeepsOrigin(m: Tree, t: Tally, child: Dn, legacy: Dn, root: Dn, refused: bool)
    requires CameFrom(m, t.tree, legacy) && IsChild(child, legacy)
    ensures CameFrom(m, ChildStep(t, child, root, refused).tree, legacy)
  {
    hide ChildStep;
    var m' := ChildStep(t, child, root, refused).tree;
    assert child[1..] == legacy && Under(child, legacy);
    forall d | d in m' ensures (d in m && m'[d] == m[d]) || exists e :: e in m && Under(e, legacy) && m'[d] == m[e] {
      OriginInStep(t, child, root, refused, d);
      if o :| o in t.tree && Under(o, child) && m'[d] == t.tree[o] {
        UnderIsTransitive(o, child, legacy);
      }
    }
  }

  lemma {:induction false} EveryEntryCameFrom(m: Tree, children: seq<Dn>, legacy: Dn, root: Dn, refused: seq<bool>)
    requires |refused| == |children| && Siblings(children, legacy) && Proper(children)
    ensures CameFrom(m, ChildSteps(m, children, root, refused).tree, legacy)
  {
    hide ChildStep, CameFrom;
    if children != [] {
      var k := |children| - 1;
      SiblingsInFront(children, legacy);
      EveryEntryCameFrom(m, children[..k], legacy, root, refused[..k]);
      StepKeepsOrigin(m, ChildSteps(m, children[..k], root, refused[..k]), children[k], legacy, root, refused[k]);
    } else {
      assert CameFrom(m, m, legacy) by { OwnOrigin(m, legacy); }
    }
  }

  lemma OwnOrigin(m: Tree, legacy: Dn)
    ensures CameFrom(m, m, legacy)
  {
  }

  /** Outside the two roots a migration changes nothing. */
  lemma {:induction false} StepsAreLocal(m: Tree, children: seq<Dn>, legacy: Dn, root: Dn, refused: seq<bool>, d: Dn)
    requires |refused| == |children| && Siblings(children, legacy) && Proper(children)
    requires !Under(d, legacy)
    ensures d in m ==>
      d in ChildSteps(m, children, root, refused).tree && ChildSteps(m, children, root, refused).tree[d] == m[d]
    ensures !Under(d, root) ==> (d in ChildSteps(m, children, root, refused).tree ==> d in m)
  {
    if children != [] {
      var k := |children| - 1;
      var child := children[k];
      StepsAreLocal(m, children[..k], legacy, root, refused[..k], d);
      StepIsLocal(ChildSteps(m, children[..k], root, refused[..k]), child, root, refused[k]);
      assert child[1..] == legacy && Under(child, legacy);
      if Under(d, child) { UnderIsTransitive(d, child, legacy); }
      if Under(d, Target(child, root)) { UnderTarget(d, child[0], root); }
    }
  }

  lemma MigrationIsLocal(m: Tree, legacy: Dn, root: Dn, order: seq<Dn>, d: Dn)
    requires ListsIfPresent(order, m, legacy) && Proper(order) && !Under(d, legacy)
    ensures d in m ==> d in Migrated(m, legacy, root, order) && Migrated(m, legacy, root, order)[d] == m[d]
    ensures !Under(d, root) ==> (d in Migrated(m, legacy, root, order) ==> d in m)
  {
    if legacy in m {
      ListedAreSiblings(order, m, legacy);
      StepsAreLocal(m, order, legacy, root, Willing(|order|), d);
      assert Under(legacy, legacy);
    }
  }

  // ---- The migration method ------------------------------------------------------------

  /** The counters, and whether the emptied legacy root could not be deleted. */
  datatype Report = Report(children: seq<Dn>, moved: nat, deleted: nat, failed: nat, rootFailed: bool)

  ghost predicate Completed(m: Tree, m': Tree, legacy: Dn, root: Dn) { legacy !in m' && United(m, m', legacy, root) }

  /** A run deletes the legacy root exactly when it completes, which the directory before and the refusals decide; then
      the names of both roots are under the new one. */
  lemma CompletesIff(m: Tree, children: seq<Dn>, legacy: Dn, root: Dn, refused: seq<bool>, rootRefused: bool)
    requires |refused| == |children| && Lists(children, m, legacy) && Proper(children) && legacy != root && legacy in m
    ensures var after := MigratedWith(m, legacy, root, children, refused, rootRefused);
      && (legacy !in after <==> Completes(m, children, legacy, root, refused, rootRefused))
      && (legacy !in after ==> Completed(m, after, legacy, root))
      && (legacy !in after ==> Childless(ChildSteps(m, children, root, refused).tree, legacy))
      && (legacy !in after ==> after == ChildSteps(m, children, root, refused).tree - {legacy})
      && (legacy in after ==> after == ChildSteps(m, children, root, refused).tree)
  {
    hide AllGo, NoOrphans, IsLeaf, United;
    ListedAreSiblings(children, m, legacy);
    forall i | 0 <= i < |children| ensures children[i] in m { assert children[i] in children; }
    ChildrenDone(m, children, legacy, root, refused);
    NoneFailsIff(m, children, legacy, root, refused);
    OutsideStays(m, children, legacy, root, refused, legacy);
    if AllGo(m, children, root, refused) { RootIsLeafIff(m, children, legacy, root, refused); }
  }

  /** A run loses something if and only if it completes although a child's target is the legacy root itself. */
  lemma LossIff(m: Tree, children: seq<Dn>, legacy: Dn, root: Dn, refused: seq<bool>, rootRefused: bool)
    requires |refused| == |children| && Proper(children)
    requires legacy != root && legacy in m && Lists(children, m, legacy)
    ensures NothingLost(m, MigratedWith(m, legacy, root, children, refused, rootRefused), legacy, root) <==>
      !(HasTwin(m, legacy, root) && Completes(m, children, legacy, root, refused, rootRefused))
  {
    hide NothingLost, Completes, HasTwin, United;
    CompletesIff(m, children, legacy, root, refused, rootRefused);
    ChildrenDone(m, children, legacy, root, refused);
    if legacy !in MigratedWith(m, legacy, root, children, refused, rootRefused) {
      RootGoesLast(m, ChildSteps(m, children, root, refused).tree, legacy, root);
    }
  }

  /** Every child can go, and nothing else is below the legacy root. */
  ghost predicate Clear(m: Tree, legacy: Dn, root: Dn)
  {
    (forall c | c in m && IsChild(c, legacy) :: CanGo(m, c, root)) && NoOrphans(m, legacy)
  }

  /** On a willing server the directory before the call decides. */
  lemma WillingLossIff(m: Tree, children: seq<Dn>, legacy: Dn, root: Dn)
    requires Proper(children) && legacy != root && legacy in m && Lists(children, m, legacy)
    ensures NothingLost(m, Migrated(m, legacy, root, children), legacy, root) <==>
      !(HasTwin(m, legacy, root) && Clear(m, legacy, root))
  {
    hide NothingLost, HasTwin, CanGo, NoOrphans;
    LossIff(m, children, legacy, root, Willing(|children|), false);
    if AllGo(m, children, root, Willing(|children|)) {
      forall c | c in m && IsChild(c, legacy) ensures CanGo(m, c, root) {
        var i :| 0 <= i < |children| && children[i] == c;
        assert CanGo(m, children[i], root);
      }
    }
    if Clear(m, legacy, root) {
      forall i | 0 <= i < |children| ensures CanGo(m, children[i], root) { assert children[i] in children; }
    }
  }

  /** Without a child of the legacy root's own name no refusals lead to a loss. */
  lemma NoTwinNoLoss(m: Tree, children: seq<Dn>, legacy: Dn, root: Dn, refused: seq<bool>, rootRefused: bool)
    requires |refused| == |children| && Proper(children) && (legacy != root ==> ListsIfPresent(children, m, legacy))
    requires !HasTwin(m, legacy, root)
    ensures NothingLost(m, MigratedWith(m, legacy, root, children, refused, rootRefused), legacy, root)
  {
    hide HasTwin;
    if legacy != root && legacy in m { LossIff(m, children, legacy, root, refused, rootRefused); }
  }

  /** The directory after is the one the listing and the server's refusals decide. Nothing is lost unless the run
      completes although a child's target was the legacy root itself; a completed run leaves the names of both roots
      under the new one. */
  method MigrateLegacyAgentGroupRoot(server: Server, legacy: Dn, root: Dn)
    returns (report: Report, ghost refused: seq<bool>, ghost rootRefused: bool)
    modifies server
    ensures Proper(report.children) && |refused| == |report.children|
    ensures server.tree == MigratedWith(old(server.tree), legacy, root, report.children, refused, rootRefused)
    ensures !server.moody ==> refused == Willing(|report.children|) && !rootRefused
    ensures old(server.lied) ==> server.lied
    ensures legacy == root || legacy !in old(server.tree) ==> report.children == []
    ensures legacy != root ==> ListsIfPresent(report.children, old(server.tree), legacy)
    ensures var t := ChildSteps(old(server.tree), report.children, root, refused);
      report.moved == t.moved && report.deleted == t.deleted && report.failed == t.failed
    ensures report.moved + report.deleted + report.failed == |report.children|
    ensures report.moved == |Movables(old(server.tree), report.children, root, refused)|
    ensures report.deleted == |Duplicates(old(server.tree), report.children, root, refused)|
    ensures legacy != root && legacy in old(server.tree) ==>
      (NothingLost(old(server.tree), server.tree, legacy, root) <==>
         !(HasTwin(old(server.tree), legacy, root) &&
           Completes(old(server.tree), report.children, legacy, root, refused, rootRefused)))
    ensures legacy != root && legacy in old(server.tree) ==>
      (report.failed == 0 && !report.rootFailed <==>
         Completes(old(server.tree), report.children, legacy, root, refused, rootRefused))
    ensures legacy != root && legacy in old(server.tree) && report.failed == 0 && !report.rootFailed ==>
      Completed(old(server.tree), server.tree, legacy, root)
  {
    hide Completes, HasTwin, NothingLost, United, IsLeaf, ChildStep, IsDuplicate, IsMovable;
    report, refused, rootRefused := Report([], 0, 0, 0, false), [], false;
    if legacy == root {
      return;
    }
    var found := server.Exists(legacy);
    if !found {
      return;
    }
    var children := server.Level(legacy);
    ghost var m := server.tree;
    ListedAreSiblings(children, m, legacy);
    var moved, deleted, failed;
    moved, deleted, failed, refused := MigrateChildren(server, children, root);
    forall i | 0 <= i < |children| ensures children[i] in m { assert children[i] in children; }
    CountersInWords(m, children, legacy, root, refused);

    var left := server.Level(legacy);
    var rootFailed := false;
    if left != [] { assert left[0] in left; }
    assert Childless(server.tree, legacy) <==> left == [];
    if left == [] {
      var code := server.Apply(Delete(server.tree, legacy));
      rootFailed, rootRefused := code != SUCCESS, server.moody && code != SUCCESS;
    }
    report := Report(children, moved, deleted, failed, rootFailed);
    ChildrenDone(m, children, legacy, root, refused);
    OutsideStays(m, children, legacy, root, refused, legacy);
    CompletesIff(m, children, legacy, root, refused, rootRefused);
    LossIff(m, children, legacy, root, refused, rootRefused);
  }

  /** After the children nothing is lost; the legacy root is childless exactly when no child failed. */
  lemma ChildrenDone(m: Tree, children: seq<Dn>, legacy: Dn, root: Dn, refused: seq<bool>)
    requires Lists(children, m, legacy) && Proper(children) && |refused| == |children|
    requires legacy != root && legacy in m
    ensures var t := ChildSteps(m, children, root, refused);
      && NothingLost(m, t.tree, legacy, root)
      && (t.failed == 0 ==> Childless(t.tree, legacy) && United(m, t.tree - {legacy}, legacy, root))
      && (t.failed > 0 ==> !Childless(t.tree, legacy))
  {
    NothingIsLost(m, children, legacy, root, refused);
    ListedAreSiblings(children, m, legacy);
    if ChildSteps(m, children, root, refused).failed == 0 {
      NoFailureUnitesTheNames(m, children, legacy, root, refused);
    } else {
      FailureLeavesAChild(m, children, legacy, root, refused);
    }
  }

  lemma {:induction false} FailureLeavesAChild(m: Tree, children: seq<Dn>, legacy: Dn, root: Dn, refused: seq<bool>)
    requires |refused| == |children| && Siblings(children, legacy) && Proper(children)
    requires forall i | 0 <= i < |children| :: children[i] in m
    requires ChildSteps(m, children, root, refused).failed > 0
    ensures exists i :: 0 <= i < |children| && children[i] in ChildSteps(m, children, root, refused).tree
  {
    var k := |children| - 1;
    var child, t := children[k], ChildSteps(m, children[..k], root, refused[..k]);
    assert child !in children[..k];
    LaterChildIsInPlace(m, children[..k], legacy, root, refused[..k], child);
    assert child[0..] == child && child in t.tree;
    if t.failed > 0 {
      FailureLeavesAChild(m, children[..k], legacy, root, refused[..k]);
      var i :| 0 <= i < k && children[..k][i] in t.tree;
      StepIsLocal(t, child, root, refused[k]);
      assert !Under(children[i], child) by { assert children[i][0..] == children[i]; }
      assert children[i] in ChildStep(t, child, root, refused[k]).tree;
    } else {
      assert children[k] in ChildStep(t, child, root, refused[k]).tree;
    }
  }

  lemma NothingIsLost(m: Tree, children: seq<Dn>, legacy: Dn, root: Dn, refused: seq<bool>)
    requires Lists(children, m, legacy) && Proper(children) && |refused| == |children|
    requires legacy != root && legacy in m
    ensures NothingLost(m, ChildSteps(m, children, root, refused).tree, legacy, root)
  {
    ListedAreSiblings(children, m, legacy);
    EveryChildIsAccounted(m, children, legacy, root, refused);
    forall d | d in m && Under(d, root) && !(Under(legacy, root) && Under(d, legacy))
      ensures d in ChildSteps(m, children, root, refused).tree && ChildSteps(m, children, root, refused).tree[d] == m[d]
    {
      ProtectedStays(m, children, legacy, root, refused, d);
    }
  }

  /** Treats one child, and counts what came of it. */
  method MigrateChild(server: Server, child: Dn, root: Dn, ghost before: Tally)
    returns (moved: nat, deleted: nat, failed: nat, ghost refused: bool)
    requires child != [] && before.tree == server.tree
    modifies server
    ensures ChildStep(before, child, root, refused) ==
      Tally(server.tree, before.moved + moved, before.deleted + deleted, before.failed + failed)
    ensures !server.moody ==> !refused
    ensures old(server.lied) ==> server.lied
  {
    hide Delete, ModifyDn;
    moved, deleted, failed := 0, 0, 0;
    var target := [child[0]] + root;
    var duplicate := server.Exists(target);
    var code;
    if duplicate {
      code := server.Apply(Delete(server.tree, child));
      if code == SUCCESS { deleted := 1; } else { failed := 1; }
    } else {
      code := server.Apply(ModifyDn(server.tree, child, root));
      if code == SUCCESS { moved := 1; } else { failed := 1; }
    }
    refused := server.moody && code != SUCCESS;
  }

  method MigrateChildren(server: Server, children: seq<Dn>, root: Dn)
    returns (moved: nat, deleted: nat, failed: nat, ghost refused: seq<bool>)
    requires Proper(children)
    modifies server
    ensures |refused| == |children|
    ensures ChildSteps(old(server.tree), children, root, refused) == Tally(server.tree, moved, deleted, failed)
    ensures !server.moody ==> refused == Willing(|children|)
    ensures old(server.lied) ==> server.lied
  {
    hide ChildStep;
    ghost var m := server.tree;
    moved, deleted, failed, refused := 0, 0, 0, [];
    for k := 0 to |children|
      invariant |refused| == k && (forall i | 0 <= i < k && !server.moody :: !refused[i])
      invariant ChildSteps(m, children[..k], root, refused) == Tally(server.tree, moved, deleted, failed)
      invariant old(server.lied) ==> server.lied
    {
      ghost var no;
      var mv, dl, fl;
      mv, dl, fl, no := MigrateChild(server, children[k], root, Tally(server.tree, moved, deleted, failed));
      moved, deleted, failed, refused := moved + mv, deleted + dl, failed + fl, refused + [no];
      assert children[..k + 1][..k] == children[..k] && refused[..k] + [no] == refused;
    }
    assert children[..|children|] == children;
  }

  /** The loss happens: a legacy root directly below the new one, with a group of the same name as the root itself. */
  lemma TwinIsLost()
    ensures exists m: Tree, legacy: Dn, root: Dn, c: Dn ::
      && HasTwin(m, legacy, root) && Lists([c], m, legacy)
      && c !in Migrated(m, legacy, root, [c]) && Target(c, root) !in Migrated(m, legacy, root, [c])
  {
    var e := Entry({}, map[]);
    var root, legacy, c: Dn := ["ou=Groups"], ["ou=Agent", "ou=Groups"], ["ou=Agent", "ou=Agent", "ou=Groups"];
    var m: Tree := map[root := e, legacy := e, c := e];
    assert legacy[1..] == root && c[1..] == legacy && Target(c, root) == legacy;
    assert |root| == 1 && |legacy| == 2 && |c| == 3;
    assert [legacy[0]] + legacy == c;
    var t := ChildSteps(m, [c], root, Willing(1));
    assert [c][..0] == [] && Willing(1)[..0] == [];
    assert ChildSteps(m, [], root, []) == Tally(m, 0, 0, 0);
    assert IsLeaf(m, c);
    assert t.tree == m - {c};
    assert IsLeaf(t.tree, legacy) && Childless(t.tree, legacy);
    assert Migrated(m, legacy, root, [c]) == m - {c} - {legacy};
    assert forall d :: d in m && IsChild(d, legacy) ==> d == c;
    assert HasTwin(m, legacy, root) && Lists([c], m, legacy);
  }
}
