/** String helpers of the Python and Java sources, on plain character sequences. */
module Text {

  datatype Option<+T> = None | Some(value: T)

  // ---- Splitting -----------------------------------------------------------------------

  /** The text before the first occurrence of `c`, or all of it. */
  function Before(s: string, c: char): (r: string)
    ensures c !in r && r <= s
    ensures r == s <==> c !in s
  {
    if s == "" || s[0] == c then "" else [s[0]] + Before(s[1..], c)
  }

  /** The text after the first occurrence of `c`, or nothing. */
  function After(s: string, c: char): (r: string)
    ensures c in s ==> s == Before(s, c) + [c] + r
  {
    if s == "" then "" else if s[0] == c then s[1..] else After(s[1..], c)
  }

  lemma {:induction false} BeforeOfJoin(head: string, c: char, tail: string)
    requires c !in head
    ensures Before(head + [c] + tail, c) == head
  {
    if head == "" {
      assert head + [c] + tail == [c] + tail;
    } else {
      BeforeOfJoin(head[1..], c, tail);
      assert (head + [c] + tail)[1..] == head[1..] + [c] + tail;
    }
  }

  lemma BeforeGoesOn(x: char, rest: string, c: char)
    requires x != c
    ensures Before([x] + rest, c) == [x] + Before(rest, c)
  {
    assert ([x] + rest)[1..] == rest;
  }

  /** What has none of the separators stays in front. */
  lemma {:induction false} BeforeSkips(p: string, rest: string, c: char)
    requires c !in p
    ensures Before(p + rest, c) == p + Before(rest, c)
  {
    hide Before;
    if p == "" {
      assert p + rest == rest;
    } else {
      BeforeSkips(p[1..], rest, c);
      BeforeGoesOn(p[0], p[1..] + rest, c);
      assert p + rest == [p[0]] + (p[1..] + rest);
      assert p + Before(rest, c) == [p[0]] + (p[1..] + Before(rest, c));
    }
  }

  lemma AfterOfJoin(head: string, c: char, tail: string)
    requires c !in head
    ensures After(head + [c] + tail, c) == tail
  {
    var s := head + [c] + tail;
    BeforeOfJoin(head, c, tail);
    assert s[|head|] == c;
    assert s == head + [c] + After(s, c);
    assert After(s, c) == s[|head| + 1..] == tail;
  }

  predicate EndsWith(s: string, suffix: string)
  {
    |suffix| <= |s| && s[|s| - |suffix|..] == suffix
  }

  // ---- Trimming ------------------------------------------------------------------------

  /** Whitespace is any character up to the blank, as in Java's `trim`. */
  predicate IsSpace(c: char) { c <= ' ' }

  predicate NoSpace(s: string) { forall c | c in s :: !IsSpace(c) }

  function TrimLeft(s: string): (r: string)
    ensures NoSpace(s) ==> r == s
    ensures forall c | c in r :: c in s
    ensures r != "" ==> !IsSpace(r[0])
  {
    if s != "" && IsSpace(s[0]) then TrimLeft(s[1..]) else s
  }

  function TrimRight(s: string): (r: string)
    ensures NoSpace(s) ==> r == s
    ensures r <= s
  {
    if s != "" && IsSpace(s[|s| - 1]) then TrimRight(s[..|s| - 1]) else s
  }

  function Trim(s: string): (r: string)
    ensures NoSpace(s) ==> r == s
    ensures forall c | c in r :: c in s
  {
    TrimRight(TrimLeft(s))
  }

  lemma {:induction false} TrimLeftOfPadded(before: string, text: string)
    requires forall c | c in before :: IsSpace(c)
    ensures TrimLeft(before + text) == TrimLeft(text)
  {
    if before == "" {
      assert before + text == text;
    } else {
      TrimLeftOfPadded(before[1..], text);
      assert (before + text)[0] == before[0] && (before + text)[1..] == before[1..] + text;
    }
  }

  lemma {:induction false} TrimRightOfPadded(text: string, after: string)
    requires forall c | c in after :: IsSpace(c)
    ensures TrimRight(text + after) == TrimRight(text)
  {
    if after == "" {
      assert text + after == text;
    } else {
      var k := |after| - 1;
      TrimRightOfPadded(text, after[..k]);
      assert (text + after)[|text + after| - 1] == after[k];
      assert (text + after)[..|text + after| - 1] == text + after[..k];
    }
  }

  lemma {:induction false} TrimLeftStops(text: string, after: string)
    requires TrimLeft(text) != ""
    ensures TrimLeft(text + after) == TrimLeft(text) + after
  {
    if text != "" && IsSpace(text[0]) {
      TrimLeftStops(text[1..], after);
      assert (text + after)[0] == text[0] && (text + after)[1..] == text[1..] + after;
    }
  }

  lemma {:induction false} NothingLeft(text: string)
    ensures TrimLeft(text) == "" <==> forall c | c in text :: IsSpace(c)
  {
    if text != "" {
      NothingLeft(text[1..]);
      assert text == [text[0]] + text[1..];
    }
  }

  /** Whitespace around a text is taken off, and nothing is left of whitespace alone. */
  lemma TrimOfPadded(before: string, text: string, after: string)
    requires (forall c | c in before :: IsSpace(c)) && (forall c | c in after :: IsSpace(c))
    ensures Trim(before + text + after) == Trim(text)
  {
    assert before + text + after == before + (text + after);
    TrimLeftOfPadded(before, text + after);
    NothingLeft(text);
    if TrimLeft(text) == "" {
      NothingLeft(text + after);
    } else {
      TrimLeftStops(text, after);
      TrimRightOfPadded(TrimLeft(text), after);
    }
  }

  /** What is left neither begins nor ends with whitespace. */
  lemma {:induction false} TrimRightEnds(s: string)
    ensures TrimRight(s) != "" ==> !IsSpace(TrimRight(s)[|TrimRight(s)| - 1])
  {
    if s != "" && IsSpace(s[|s| - 1]) { TrimRightEnds(s[..|s| - 1]); }
  }

  lemma TrimmedEnds(s: string)
    ensures Trim(s) != "" ==> !(Trim(s)[0] <= ' ') && !(Trim(s)[|Trim(s)| - 1] <= ' ')
  {
    TrimRightEnds(TrimLeft(s));
  }

  predicate IsBlank(s: string) { forall c | c in s :: c <= ' ' }

  /** The text with the whitespace around it taken off, and something left. */
  ghost predicate IsCore(core: string, s: string)
  {
    && core != "" && core[0] > ' ' && core[|core| - 1] > ' '
    && exists before, after :: IsBlank(before) && IsBlank(after) && s == before + core + after
  }

  lemma {:induction false} TrimLeftSplits(s: string) returns (before: string)
    ensures IsBlank(before) && s == before + TrimLeft(s)
  {
    before := "";
    if s != "" && IsSpace(s[0]) {
      var more := TrimLeftSplits(s[1..]);
      before := [s[0]] + more;
    }
  }

  lemma {:induction false} TrimRightSplits(s: string) returns (after: string)
    ensures IsBlank(after) && s == TrimRight(s) + after
  {
    after := "";
    if s != "" && IsSpace(s[|s| - 1]) {
      var more := TrimRightSplits(s[..|s| - 1]);
      after := more + [s[|s| - 1]];
    }
  }

  lemma TrimSplits(s: string) returns (before: string, after: string)
    ensures IsBlank(before) && IsBlank(after) && s == before + Trim(s) + after
  {
    before := TrimLeftSplits(s);
    after := TrimRightSplits(TrimLeft(s));
  }

  lemma TrimInWords(s: string)
    ensures Trim(s) == "" <==> IsBlank(s)
    ensures forall core | core != "" :: Trim(s) == core <==> IsCore(core, s)
  {
    hide Trim;
    var before, after := TrimSplits(s);
    TrimmedEnds(s);
    if Trim(s) != "" {
      assert Trim(s)[0] in s && IsCore(Trim(s), s);
    }
    forall core | IsCore(core, s) ensures Trim(s) == core { CoreIsTrimmed(core, s); }
  }

  lemma CoreIsTrimmed(core: string, s: string)
    requires IsCore(core, s)
    ensures Trim(s) == core
  {
    var before, after :| IsBlank(before) && IsBlank(after) && s == before + core + after;
    TrimOfPadded(before, core, after);
  }

  // ---- Case ----------------------------------------------------------------------------

  function Lower(s: string): (r: string)
    ensures |r| == |s|
    ensures forall i | 0 <= i < |s| :: r[i] == if 'A' <= s[i] <= 'Z' then s[i] - 'A' + 'a' else s[i]
  {
    seq(|s|, i requires 0 <= i < |s| => if 'A' <= s[i] <= 'Z' then s[i] - 'A' + 'a' else s[i])
  }

  // ---- Decimal numerals ----------------------------------------------------------------

  function Digit(d: nat): (c: char)
    requires d < 10
    ensures '0' <= c <= '9'
  {
    '0' + d as char
  }

  function Decimal(n: nat): (r: string)
    ensures r != ""
    ensures forall c | c in r :: '0' <= c <= '9'
  {
    if n < 10 then [Digit(n)] else Decimal(n / 10) + [Digit(n % 10)]
  }

  /** The numeral a string of digits stands for. */
  ghost function Numeral(s: string): int
  {
    if s == "" then 0 else Numeral(s[..|s| - 1]) * 10 + (s[|s| - 1] as int - '0' as int)
  }

  lemma {:induction false} DecimalReadsBack(n: nat)
    ensures Numeral(Decimal(n)) == n
  {
    if n < 10 {
      assert Decimal(n)[..0] == "";
    } else {
      DecimalReadsBack(n / 10);
      assert Decimal(n)[..|Decimal(n)| - 1] == Decimal(n / 10);
    }
  }

  function Zeros(k: nat): (r: string)
    ensures |r| == k && forall c | c in r :: c == '0'
  {
    seq(k, _ => '0')
  }

  /** Python's `{n:03d}`. */
  function Padded(n: nat): (r: string)
    ensures |r| >= 3
    ensures forall c | c in r :: '0' <= c <= '9'
  {
    var d := Decimal(n);
    if |d| < 3 then Zeros(3 - |d|) + d else d
  }

  lemma {:induction false} LeadingZeros(k: nat, s: string)
    ensures Numeral(Zeros(k) + s) == Numeral(s)
    decreases |s|, k
  {
    var t := Zeros(k) + s;
    if s == "" {
      if k > 0 {
        assert t[..k - 1] == Zeros(k - 1) + "";
        LeadingZeros(k - 1, "");
      }
    } else {
      assert t[..|t| - 1] == Zeros(k) + s[..|s| - 1];
      LeadingZeros(k, s[..|s| - 1]);
    }
  }

  lemma {:induction false} DecimalLeads(n: nat)
    ensures if n == 0 then |Decimal(n)| == 1 else Decimal(n)[0] != '0'
  {
    if n >= 10 { DecimalLeads(n / 10); }
  }

  /** The padded numeral reads back; it has three digits, or more and no leading zero. */
  lemma PaddedReadsBack(n: nat)
    ensures Numeral(Padded(n)) == n
    ensures |Padded(n)| == 3 || Padded(n)[0] != '0'
  {
    DecimalReadsBack(n);
    DecimalLeads(n);
    if |Decimal(n)| < 3 {
      LeadingZeros(3 - |Decimal(n)|, Decimal(n));
    }
  }

  // ---- Ordering ------------------------------------------------------------------------

  /** Python's order on strings: character by character, a prefix first. */
  predicate Less(a: string, b: string)
  {
    b != "" && (a == "" || a[0] < b[0] || (a[0] == b[0] && Less(a[1..], b[1..])))
  }

  lemma {:induction false} LessIsTotal(a: string, b: string)
    ensures a == b || Less(a, b) || Less(b, a)
    ensures !(Less(a, b) && Less(b, a)) && !Less(a, a)
  {
    if a != "" && b != "" {
      LessIsTotal(a[1..], b[1..]);
      assert a == [a[0]] + a[1..] && b == [b[0]] + b[1..];
    }
    if a != "" {
      LessIsTotal(a[1..], a[1..]);
    }
  }

  lemma {:induction false} LessIsTransitive(a: string, b: string, c: string)
    requires Less(a, b) && Less(b, c)
    ensures Less(a, c)
  {
    if a != "" && a[0] == b[0] == c[0] {
      LessIsTransitive(a[1..], b[1..], c[1..]);
    }
  }

  /** One text comes before another exactly if it is a proper prefix, or has the smaller character where they first
      differ. */
  lemma {:induction false} LessIsByFirstDifference(a: string, b: string)
    ensures Less(a, b) <==> exists i :: 0 <= i <= |a| && i < |b| && a[..i] == b[..i] && (i == |a| || a[i] < b[i])
  {
    if Less(a, b) {
      if a == "" || a[0] < b[0] {
        assert a[..0] == b[..0];
      } else {
        LessIsByFirstDifference(a[1..], b[1..]);
        var i :| 0 <= i <= |a| - 1 && i < |b| - 1 && a[1..][..i] == b[1..][..i]
                 && (i == |a| - 1 || a[1..][i] < b[1..][i]);
        assert a[..i + 1] == [a[0]] + a[1..][..i] && b[..i + 1] == [b[0]] + b[1..][..i];
      }
    } else if i :| 0 <= i <= |a| && i < |b| && a[..i] == b[..i] && (i == |a| || a[i] < b[i]) {
      if i > 0 {
        assert a[0] == a[..i][0] == b[..i][0] == b[0];
        assert a[1..][..i - 1] == a[..i][1..] && b[1..][..i - 1] == b[..i][1..];
        LessIsByFirstDifference(a[1..], b[1..]);
      }
      assert false;
    }
  }

  ghost predicate StrictlySorted(s: seq<string>)
  {
    forall i, j :: 0 <= i < j < |s| ==> Less(s[i], s[j])
  }

  function Insert(x: string, s: seq<string>): (r: seq<string>)
    requires StrictlySorted(s)
    ensures StrictlySorted(r)
    ensures forall y :: y in r <==> y == x || y in s
  {
    if s == [] then [x]
    else if x == s[0] then s
    else if Less(x, s[0]) then
      assert forall j | 0 < j < |s| :: Less(x, s[j]) by {
        forall j | 0 < j < |s| ensures Less(x, s[j]) { LessIsTransitive(x, s[0], s[j]); }
      }
      [x] + s
    else
      LessIsTotal(x, s[0]);
      assert s == [s[0]] + s[1..];
      var rest := Insert(x, s[1..]);
      assert forall j | 0 <= j < |rest| :: Less(s[0], rest[j]) by {
        forall j | 0 <= j < |rest| ensures Less(s[0], rest[j]) { assert rest[j] in rest; }
      }
      [s[0]] + rest
  }

  /** `sorted(dict.fromkeys(items))`. */
  function SortedUnique(s: seq<string>): (r: seq<string>)
    ensures StrictlySorted(r)
    ensures forall y :: y in r <==> y in s
  {
    if s == [] then [] else
      assert s == [s[0]] + s[1..];
      Insert(s[0], SortedUnique(s[1..]))
  }

  function Elements(s: seq<string>): set<string> { set x | x in s }

  lemma {:induction false} SortedSize(s: seq<string>)
    requires StrictlySorted(s)
    ensures |s| == |Elements(s)|
  {
    if s != [] {
      var t := s[1..];
      SortedSize(t);
      assert s == [s[0]] + t;
      assert s[0] !in t by {
        if s[0] in t {
          LessIsTotal(s[0], s[0]);
        }
      }
      assert Elements(s) == {s[0]} + Elements(t);
    }
  }

  /** A strictly sorted list is determined by its elements: list equality is set equality. */
  lemma {:induction false} SortedIsCanonical(a: seq<string>, b: seq<string>)
    requires StrictlySorted(a) && StrictlySorted(b)
    requires Elements(a) == Elements(b)
    ensures a == b
  {
    SortedSize(a);
    SortedSize(b);
    if a != [] {
      assert a[0] in Elements(b) && b[0] in Elements(a);
      if a[0] != b[0] {
        LessIsTotal(a[0], b[0]);
        LessIsTotal(b[0], a[0]);
        assert false;
      }
      assert a == [a[0]] + a[1..] && b == [b[0]] + b[1..];
      forall x | x in a[1..] ensures x in b[1..] { assert x in Elements(b); LessIsTotal(x, a[0]); }
      forall x | x in b[1..] ensures x in a[1..] { assert x in Elements(a); LessIsTotal(x, b[0]); }
      SortedIsCanonical(a[1..], b[1..]);
    }
  }

  /** Equal sizes and containment make two finite sets equal. */
  lemma {:induction false} SubsetOfSameSize<T>(a: set<T>, b: set<T>)
    requires a <= b && |a| == |b|
    ensures a == b
  {
    if a != {} {
      var x :| x in a;
      SubsetOfSameSize(a - {x}, b - {x});
    }
  }

  // ---- Arithmetic ----------------------------------------------------------------------

  lemma MulMonotone(a: int, b: int, c: int)
    requires a <= b && 0 <= c
    ensures a * c <= b * c
  {
  }
}
