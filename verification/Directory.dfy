/** An LDAP directory as a map from distinguished names to entries, with the operations and result codes of RFC 4511. */
module Directory {
  type Rdn = string

  /** A distinguished name, its leaf first. */
  type Dn = seq<Rdn>

  /** An attribute value: text, or the name of another entry. */
  datatype Value = Plain(text: string) | Name(dn: Dn)

  datatype Entry = Entry(classes: set<string>, attributes: map<string, set<Value>>)

  type Tree = map<Dn, Entry>

  const SUCCESS := 0
  const NO_SUCH_OBJECT := 32
  const UNWILLING_TO_PERFORM := 53
  const NOT_ALLOWED_ON_NON_LEAF := 66
  const ENTRY_ALREADY_EXISTS := 68

  /** `d` is `base` or lies below it. */
  predicate Under(d: Dn, base: Dn)
  {
    |base| <= |d| && d[|d| - |base|..] == base
  }

  /** What is under a base goes to the same place under another one. */
  function Rebase(d: Dn, from: Dn, to: Dn): (r: Dn)
    requires Under(d, from)
    ensures Under(r, to) && Rebased(r, to, from) == d
  {
    var r := Rebased(d, from, to);
    assert r[|r| - |to|..] == to;
    assert r[..|r| - |to|] == d[..|d| - |from|];
    r
  }

  function Rebased(d: Dn, from: Dn, to: Dn): Dn
    requires |from| <= |d|
  {
    d[..|d| - |from|] + to
  }

  predicate IsChild(d: Dn, base: Dn) { |d| == |base| + 1 && d[1..] == base }

  predicate IsLeaf(m: Tree, dn: Dn) { forall d | d in m :: Under(d, dn) ==> d == dn }

  predicate Vacant(m: Tree, dn: Dn) { forall d | d in m :: !Under(d, dn) }

  // ---- Sections 4.6 to 4.9 -------------------------------------------------------------

  /** An operation's result code and the directory after it. */
  datatype Answer = Answer(code: int, tree: Tree)

  function Add(m: Tree, dn: Dn, e: Entry): (a: Answer)
    ensures a.code != SUCCESS ==> a.tree == m
  {
    if dn in m then Answer(ENTRY_ALREADY_EXISTS, m)
    else if dn == [] || dn[1..] !in m then Answer(NO_SUCH_OBJECT, m)
    else Answer(SUCCESS, m[dn := e])
  }

  /** A modify whose changes all replace. */
  function Replace(m: Tree, dn: Dn, changes: map<string, set<Value>>): (a: Answer)
    ensures a.code != SUCCESS ==> a.tree == m
  {
    if dn !in m then Answer(NO_SUCH_OBJECT, m)
    else Answer(SUCCESS, m[dn := m[dn].(attributes := m[dn].attributes + changes)])
  }

  function Delete(m: Tree, dn: Dn): (a: Answer)
    ensures a.code != SUCCESS ==> a.tree == m
  {
    if dn !in m then Answer(NO_SUCH_OBJECT, m)
    else if !IsLeaf(m, dn) then Answer(NOT_ALLOWED_ON_NON_LEAF, m)
    else Answer(SUCCESS, m - {dn})
  }

  /** A modify DN that keeps the RDN: the entry and everything below it move under the new superior. */
  function ModifyDn(m: Tree, dn: Dn, superior: Dn): (a: Answer)
    requires dn != []
    ensures a.code != SUCCESS ==> a.tree == m
  {
    var target := [dn[0]] + superior;
    if dn !in m || superior !in m then Answer(NO_SUCH_OBJECT, m)
    else if Under(superior, dn) then Answer(UNWILLING_TO_PERFORM, m)
    else if !Vacant(m, target) then Answer(ENTRY_ALREADY_EXISTS, m)
    else Answer(SUCCESS, Moved(m, dn, target))
  }

  function Moved(m: Tree, from: Dn, to: Dn): (r: Tree)
    requires Vacant(m, to)
    ensures forall d :: d in m && !Under(d, from) ==> d in r && r[d] == m[d]
    ensures forall d :: d in m && Under(d, from) ==> Rebase(d, from, to) in r && r[Rebase(d, from, to)] == m[d]
    ensures forall d :: d in r && !Under(d, to) ==> d in m && !Under(d, from)
    ensures forall d :: d in r && Under(d, to) ==> Rebase(d, to, from) in m
  {
    var staying := set d | d in m && !Under(d, from);
    var arriving := set d | d in m && Under(d, from) :: Rebase(d, from, to);
    map d | d in staying + arriving :: if Under(d, to) then m[Rebase(d, to, from)] else m[d]
  }

  // ---- Directory information trees -----------------------------------------------------

  lemma UnderMeansEndsWith(d: Dn, base: Dn)
    ensures Under(d, base) <==> exists front: Dn :: d == front + base
  {
    if Under(d, base) { assert d == d[..|d| - |base|] + base; }
  }

  /** Every entry is under the base and, but for the base, has a superior, as section 3.2 of RFC 4512 demands. */
  ghost predicate IsTree(m: Tree, base: Dn)
  {
    base in m && forall d | d in m :: Under(d, base) && (d != base ==> d[1..] in m)
  }

  /** In a tree whatever has an entry below it is there, and has a child. */
  lemma {:induction false} HasChild(m: Tree, base: Dn, d: Dn, above: Dn)
    requires IsTree(m, base) && d in m && Under(d, above) && d != above && Under(above, base)
    ensures above in m && exists c :: c in m && IsChild(c, above)
    decreases |d|
  {
    assert |d| > |above| by { assert d[0..] == d; }
    assert d[1..][|d| - 1 - |above|..] == above;
    if d[1..] == above {
      assert IsChild(d, above);
    } else {
      HasChild(m, base, d[1..], above);
    }
  }

  lemma LeavesAndVacancies(m: Tree, base: Dn, dn: Dn)
    requires IsTree(m, base)
    ensures dn in m ==> (IsLeaf(m, dn) <==> forall c | c in m :: !IsChild(c, dn))
    ensures Under(dn, base) ==> (Vacant(m, dn) <==> dn !in m)
  {
    forall d | d in m && Under(d, dn) && d != dn && Under(dn, base)
      ensures dn in m && exists c :: c in m && IsChild(c, dn)
    {
      HasChild(m, base, d, dn);
    }
    forall c | c in m && IsChild(c, dn) ensures Under(c, dn) && c != dn {
      assert c[|c| - |dn|..] == dn;
    }
    assert dn[0..] == dn;
  }

  lemma ChildOfTree(dn: Dn, superior: Dn, base: Dn)
    requires dn != [] && dn[1..] == superior && Under(superior, base)
    ensures Under(dn, base) && dn != base
  {
    assert dn[|dn| - |base|..] == superior[|superior| - |base|..];
  }

  /** An entry is added exactly where there is a superior and no entry. */
  lemma AddInWords(m: Tree, base: Dn, dn: Dn, e: Entry)
    requires IsTree(m, base)
    ensures var a := Add(m, dn, e);
      && (a.code == 0 <==> dn !in m && dn != [] && dn[1..] in m)
      && IsTree(a.tree, base)
      && (a.code == 0 ==> a.tree.Keys == m.Keys + {dn} && a.tree[dn] == e && forall d | d in m :: a.tree[d] == m[d])
  {
    if Add(m, dn, e).code == 0 { ChildOfTree(dn, dn[1..], base); }
  }

  /** A replacement replaces the attributes it names, of an entry that is there, and nothing else. */
  lemma ReplaceInWords(m: Tree, base: Dn, dn: Dn, changes: map<string, set<Value>>)
    requires IsTree(m, base)
    ensures var a := Replace(m, dn, changes);
      && (a.code == 0 <==> dn in m)
      && IsTree(a.tree, base) && a.tree.Keys == m.Keys
      && (forall d | d in m && d != dn :: a.tree[d] == m[d])
      && (a.code == 0 ==>
            && a.tree[dn].classes == m[dn].classes
            && (forall x | x in changes :: x in a.tree[dn].attributes && a.tree[dn].attributes[x] == changes[x])
            && (forall x | x !in changes :: x in a.tree[dn].attributes <==> x in m[dn].attributes)
            && (forall x | x !in changes && x in m[dn].attributes ::
                  a.tree[dn].attributes[x] == m[dn].attributes[x]))
  {
  }

  /** Only entries without children are deleted. */
  lemma DeleteInWords(m: Tree, base: Dn, dn: Dn)
    requires IsTree(m, base)
    ensures var a := Delete(m, dn);
      && (a.code == 0 <==> dn in m && forall c | c in m :: !IsChild(c, dn))
      && (a.code == 0 ==> a.tree.Keys == m.Keys - {dn} && forall d | d in a.tree :: a.tree[d] == m[d])
      && (dn != base ==> IsTree(a.tree, base))
  {
    LeavesAndVacancies(m, base, dn);
    if dn in m && (forall c | c in m :: !IsChild(c, dn)) && dn != base { LeafGoes(m, base, dn); }
  }

  lemma LeafGoes(m: Tree, base: Dn, dn: Dn)
    requires IsTree(m, base) && dn != base && forall c | c in m :: !IsChild(c, dn)
    ensures IsTree(m - {dn}, base)
  {
    forall d | d in m && d != dn && d != base ensures d[1..] in m - {dn} {
      SuperiorIsNoLeaf(m, d, dn);
    }
  }

  lemma SuperiorIsNoLeaf(m: Tree, d: Dn, dn: Dn)
    requires d in m && d != [] && forall c | c in m :: !IsChild(c, dn)
    ensures d[1..] != dn
  {
    assert !IsChild(d, dn);
  }

  /** An entry is moved, with all that is below it, under another that is not below it and has no child of its name. */
  lemma ModifyDnInWords(m: Tree, base: Dn, dn: Dn, superior: Dn)
    requires IsTree(m, base) && dn != []
    ensures var a, target := ModifyDn(m, dn, superior), [dn[0]] + superior;
      && (a.code == 0 <==> dn in m && superior in m && !Under(superior, dn) && target !in m)
      && IsTree(a.tree, base)
      && (a.code == 0 ==>
            && target in a.tree && a.tree[target] == m[dn]
            && (forall front: Dn | front + dn in m ::
                  front + target in a.tree && a.tree[front + target] == m[front + dn] && front + dn !in a.tree)
            && (forall d | d in m && !Under(d, dn) :: d in a.tree && a.tree[d] == m[d])
            && forall d | d in a.tree && !Under(d, target) :: d in m && !Under(d, dn))
  {
    hide Moved;
    var a, target := ModifyDn(m, dn, superior), [dn[0]] + superior;
    assert target[1..] == superior && dn[0..] == dn;
    if superior in m {
      ChildOfTree(target, superior, base);
      LeavesAndVacancies(m, base, target);
    }
    if a.code == 0 {
      assert Rebase(dn, dn, target) == target;
      forall front: Dn | front + dn in m
        ensures front + target in a.tree && a.tree[front + target] == m[front + dn] && front + dn !in a.tree
      {
        SameFront(m, dn, target, front);
      }
      MovedIsTree(m, base, dn, target);
    }
  }

  lemma SameFront(m: Tree, dn: Dn, target: Dn, front: Dn)
    requires Vacant(m, target) && front + dn in m && target != [] && !Under(target[1..], dn)
    ensures var r := Moved(m, dn, target);
      front + target in r && r[front + target] == m[front + dn] && front + dn !in r
  {
    var d, r := front + dn, Moved(m, dn, target);
    assert d[|d| - |dn|..] == dn && d[..|d| - |dn|] == front;
    assert Rebase(d, dn, target) == front + target;
  }

  lemma MovedIsTree(m: Tree, base: Dn, dn: Dn, target: Dn)
    requires IsTree(m, base) && dn != [] && target != [] && target[1..] in m && dn in m
    requires Vacant(m, target) && !Under(target[1..], dn)
    ensures IsTree(Moved(m, dn, target), base)
  {
    var r := Moved(m, dn, target);
    ChildOfTree(target, target[1..], base);
    NotAbove(target[1..], base, dn);
    forall d | d in r ensures Under(d, base) && (d != base ==> d[1..] in r) {
      if Under(d, target) {
        BaseIsAbove(d, target, base);
        MovedHasSuperior(m, base, dn, target, d);
      } else if d != base {
        NotBelow(d, dn);
      }
    }
  }

  lemma NotAbove(d: Dn, base: Dn, dn: Dn)
    requires Under(d, base) && !Under(d, dn)
    ensures !Under(base, dn)
  {
    if Under(base, dn) { BaseIsAbove(d, base, dn); }
  }

  lemma NotBelow(d: Dn, dn: Dn)
    requires d != [] && !Under(d, dn)
    ensures !Under(d[1..], dn)
  {
    if |d| > |dn| { assert d[|d| - |dn|..] == d[1..][|d| - 1 - |dn|..]; }
  }

  lemma BaseIsAbove(d: Dn, between: Dn, base: Dn)
    requires Under(d, between) && Under(between, base)
    ensures Under(d, base)
  {
    assert d[|d| - |base|..] == d[|d| - |between|..][|between| - |base|..];
  }

  lemma MovedHasSuperior(m: Tree, base: Dn, dn: Dn, target: Dn, d: Dn)
    requires IsTree(m, base) && dn != [] && target != [] && target[1..] in m && dn in m
    requires Vacant(m, target) && !Under(target[1..], dn) && d in Moved(m, dn, target) && Under(d, target)
    requires !Under(base, dn)
    ensures d != [] && d[1..] in Moved(m, dn, target)
  {
    if |d| == |target| {
      assert d == target;
    } else {
      var was := Rebase(d, target, dn);
      assert was in m && |was| > |dn|;
      assert was[1..] in m;
      Upwards(was, dn, target);
      Upwards(d, target, dn);
      assert Rebase(was, dn, target) == d;
    }
  }

  /** Going up and going to another base can be exchanged. */
  lemma Upwards(d: Dn, from: Dn, to: Dn)
    requires Under(d, from) && |d| > |from|
    ensures Under(d[1..], from) && Rebase(d, from, to) != [] && Rebase(d[1..], from, to) == Rebase(d, from, to)[1..]
  {
    assert d[1..][|d| - 1 - |from|..] == from;
    assert Rebase(d, from, to) == d[..|d| - |from|] + to;
    assert d[1..][..|d| - 1 - |from|] == d[..|d| - |from|][1..];
  }

  // ---- The server ----------------------------------------------------------------------

  /** A server; a moody one may refuse any change with a code of its own. It has lied once it has called an entry
      existing that does not. */
  class Server {
    const moody: bool
    var tree: Tree
    ghost var lied: bool

    constructor (tree: Tree, moody: bool)
      ensures this.tree == tree && this.moody == moody && !lied
    {
      this.tree, this.moody, this.lied := tree, moody, false;
    }

    /** A refusal code, or 0 to let the operation go ahead. */
    method Mood() returns (code: int)
      ensures !moody ==> code == SUCCESS
    {
      code := SUCCESS;
      if moody {
        code := *;
      }
    }

    method Apply(answer: Answer) returns (code: int)
      requires answer.code != SUCCESS ==> answer.tree == tree
      modifies this
      ensures code == SUCCESS ==> answer.code == SUCCESS && tree == answer.tree
      ensures code != SUCCESS ==> tree == old(tree)
      ensures !moody ==> code == answer.code && lied == old(lied)
      ensures !lied ==> !old(lied) && (code == ENTRY_ALREADY_EXISTS ==> answer.code == ENTRY_ALREADY_EXISTS)
    {
      code := Mood();
      if code == SUCCESS {
        code := answer.code;
        tree := answer.tree;
      }
      lied := lied || (code == ENTRY_ALREADY_EXISTS && answer.code != ENTRY_ALREADY_EXISTS);
    }

    /** A search with scope base: whether the entry exists. */
    method Exists(dn: Dn) returns (found: bool)
      ensures found <==> dn in tree
    {
      found := dn in tree;
    }

    /** A search with scope level, in an order of the server's choosing. */
    method Level(base: Dn) returns (children: seq<Dn>)
      ensures Lists(children, tree, base)
    {
      children := [];
      var left := set d | d in tree && IsChild(d, base);
      ghost var all := left;
      while left != {}
        invariant left <= all
        invariant forall d :: d in children <==> d in all && d !in left
        invariant forall i, j | 0 <= i < j < |children| :: children[i] != children[j]
      {
        var d :| d in left;
        children := children + [d];
        left := left - {d};
      }
    }
  }

  /** The children of a base, each once. */
  ghost predicate Lists(children: seq<Dn>, m: Tree, base: Dn)
  {
    && (forall d :: d in children <==> d in m && IsChild(d, base))
    && (forall i, j | 0 <= i < j < |children| :: children[i] != children[j])
  }
}
