/** The paged agent list of the management API, and the fixed first page the collector asks for. */
module AgentListing {
  import opened Text

  const FIRST_PAGE := 1
  const PAGE_SIZE := 100

  function MinNat(a: nat, b: nat): nat { if a < b then a else b }

  /** The rows a query returns for a first result and a maximum number of results. */
  function Query<T>(rows: seq<T>, first: nat, max: nat): (r: seq<T>)
    ensures |r| <= max
  {
    if first >= |rows| then [] else rows[first..MinNat(first + max, |rows|)]
  }

  /** The page as the criteria builder sets it up: a page that reaches past the end asks for the remainder. */
  function Page<T>(rows: seq<T>, page: nat, size: nat): seq<T>
    requires page >= 1 && size >= 1
  {
    Query(rows, (page - 1) * size, if page * size > |rows| then |rows| % size else size)
  }

  lemma Remainder(n: nat, q: nat, size: nat)
    requires size >= 1 && q * size <= n < (q + 1) * size
    ensures n % size == n - q * size
  {
    var d := n / size - q;
    assert d * size == n - q * size - n % size;
    if d >= 1 { MulMonotone(1, d, size); }
    if d <= -1 { MulMonotone(d, -1, size); }
  }

  lemma Distribute(q: nat, size: nat)
    ensures (q + 1) * size == q * size + size && q * size >= 0
  {
  }

  lemma FromIsSlice<T>(rows: seq<T>, first: nat, size: nat, rest: nat)
    requires first < |rows| < first + size ==> rest == |rows| - first
    ensures Query(rows, first, if first + size > |rows| then rest else size) ==
      rows[MinNat(first, |rows|)..MinNat(first + size, |rows|)]
  {
  }

  /** The remainder is the right number: page p holds the rows from (p-1)*size up to p*size, as far as there are any. */
  lemma PageIsItsSlice<T>(rows: seq<T>, page: nat, size: nat)
    requires page >= 1 && size >= 1
    ensures var lo, hi := MinNat((page - 1) * size, |rows|), MinNat(page * size, |rows|);
      lo <= hi && Page(rows, page, size) == rows[lo..hi]
  {
    var first := (page - 1) * size;
    Distribute(page - 1, size);
    if first < |rows| < first + size { Remainder(|rows|, page - 1, size); }
    FromIsSlice(rows, first, size, |rows| % size);
  }

  /** What `get_agent_list` returns: the first page, or nothing if the call fails. */
  function AgentList<T>(rows: seq<T>, answered: bool): (r: seq<T>)
    ensures r == if !answered then [] else if |rows| <= 100 then rows else rows[..100]
  {
    if !answered then [] else
    PageIsItsSlice(rows, FIRST_PAGE, PAGE_SIZE);
    Page(rows, FIRST_PAGE, PAGE_SIZE)
  }
}
