/**
 * `GAME_UTILS.formatNumber` (public/components/utils.js): the decimal text of
 * a number with a comma between every group of three digits, written as
 * `num.toString().replace(/\B(?=(\d{3})+(?!\d))/g, ",")`.
 *
 * The model takes integer inputs. `InsertSeparators` is the regular
 * expression replacement read literally (a non-word-boundary position
 * followed by a run of digits whose length is a positive multiple of three),
 * and `Grouped` is an independent description of the intended output (a
 * leading group of one to three digits, then ",ddd" groups). The main
 * theorem, `FormatNumberIsGrouped`, says the two agree.
 */
module Utils {

  predicate IsDigit(c: char)
  {
    '0' <= c <= '9'
  }

  /** The characters of the regular expression class `\w`. */
  predicate IsWordChar(c: char)
  {
    ('a' <= c <= 'z') || ('A' <= c <= 'Z') || IsDigit(c) || c == '_'
  }

  predicate AllDigits(s: string)
  {
    forall i :: 0 <= i < |s| ==> IsDigit(s[i])
  }

  function DigitChar(d: nat): (c: char)
    requires d < 10
    ensures IsDigit(c)
  {
    "0123456789"[d]
  }

  /** `n.toString()` for a non-negative integer: decimal digits, no leading zero. */
  function Decimal(n: nat): (s: string)
    ensures |s| >= 1 && AllDigits(s)
    ensures s[0] == '0' ==> n == 0
    ensures n < 10 <==> |s| == 1
    ensures n < 100 <==> |s| <= 2
    ensures n < 1000 <==> |s| <= 3
  {
    if n < 10 then [DigitChar(n)]
    else
      assert n / 10 < 10 <==> n < 100;
      assert n / 10 < 100 <==> n < 1000;
      Decimal(n / 10) + [DigitChar(n % 10)]
  }

  /** `n.toString()` for an integer. */
  function ToString(n: int): string
  {
    if n < 0 then "-" + Decimal(-n) else Decimal(n)
  }

  // ---------------------------------------------------------------------
  // The regular expression replacement, read literally

  /** Length of the run of digits starting at position `p`. */
  function DigitRun(s: string, p: nat): (k: nat)
    requires p <= |s|
    ensures p + k <= |s|
    ensures forall i :: p <= i < p + k ==> IsDigit(s[i])
    ensures p + k < |s| ==> !IsDigit(s[p + k])
    decreases |s| - p
  {
    if p < |s| && IsDigit(s[p]) then 1 + DigitRun(s, p + 1) else 0
  }

  /** `\B` at position `p`: the characters on both sides are alike (both word or both not). */
  predicate NotWordBoundary(s: string, p: nat)
    requires p <= |s|
  {
    (p > 0 && IsWordChar(s[p - 1])) == (p < |s| && IsWordChar(s[p]))
  }

  /** Where `\B(?=(\d{3})+(?!\d))` matches: `\B`, then 3k digits (k >= 1) and no further digit. */
  predicate SeparatorAt(s: string, p: nat)
    requires p <= |s|
  {
    NotWordBoundary(s, p) && DigitRun(s, p) > 0 && DigitRun(s, p) % 3 == 0
  }

  /** The global replacement from position `p` on: "," at every match, every character kept. */
  function InsertFrom(s: string, p: nat): string
    requires p <= |s|
    decreases |s| - p
  {
    (if SeparatorAt(s, p) then "," else "")
    + (if p == |s| then "" else [s[p]] + InsertFrom(s, p + 1))
  }

  function InsertSeparators(s: string): string
  {
    InsertFrom(s, 0)
  }

  /** `GAME_UTILS.formatNumber(n)` for an integer `n`. */
  function FormatNumber(n: int): string
  {
    InsertSeparators(ToString(n))
  }

  // ---------------------------------------------------------------------
  // The intended output, described independently

  /** ",ddd" for every three digits of `t`. */
  function Groups(t: string): string
    requires |t| % 3 == 0
    decreases |t|
  {
    if t == [] then [] else "," + t[..3] + Groups(t[3..])
  }

  /** Size of the leading group of a number with `n` digits: 1, 2 or 3. */
  function LeadLength(n: nat): (k: nat)
    requires n >= 1
    ensures 1 <= k <= 3 && k <= n && (n - k) % 3 == 0
  {
    1 + (n - 1) % 3
  }

  function Grouped(ds: string): string
    requires |ds| >= 1
  {
    var k := LeadLength(|ds|);
    ds[..k] + Groups(ds[k..])
  }

  function StripCommas(s: string): string
  {
    if s == [] then [] else (if s[0] == ',' then [] else [s[0]]) + StripCommas(s[1..])
  }

  function CommaCount(s: string): nat
  {
    if s == [] then 0 else (if s[0] == ',' then 1 else 0) + CommaCount(s[1..])
  }

  /** Every comma is followed by exactly three digits and then a comma or the end. */
  predicate CommasSeparateTriples(r: string)
  {
    forall i :: 0 <= i < |r| && r[i] == ',' ==>
      i + 3 < |r| && IsDigit(r[i + 1]) && IsDigit(r[i + 2]) && IsDigit(r[i + 3])
      && (i + 4 == |r| || r[i + 4] == ',')
  }

  // ---------------------------------------------------------------------
  // The replacement produces the grouping

  /** The replacement over the tail of a digit run, scanned from its end. */
  function Tail(t: string): string
    decreases |t|
  {
    if t == [] then [] else (if |t| % 3 == 0 then "," else "") + [t[0]] + Tail(t[1..])
  }

  lemma {:induction false} DigitRunToEnd(s: string, p: nat)
    requires p <= |s|
    requires forall i :: p <= i < |s| ==> IsDigit(s[i])
    ensures DigitRun(s, p) == |s| - p
    decreases |s| - p
  {
    if p < |s| {
      DigitRunToEnd(s, p + 1);
    }
  }

  /** Inside a run of digits that reaches the end, a comma goes where 3k digits remain. */
  lemma {:induction false} InsertFromDigits(s: string, q: nat, p: nat)
    requires q < p <= |s|
    requires forall i :: q <= i < |s| ==> IsDigit(s[i])
    ensures InsertFrom(s, p) == Tail(s[p..])
    decreases |s| - p
  {
    DigitRunToEnd(s, p);
    assert IsWordChar(s[p - 1]);
    if p < |s| {
      assert SeparatorAt(s, p) <==> |s[p..]| % 3 == 0;
      InsertFromDigits(s, q, p + 1);
      assert s[p..][1..] == s[p + 1..];
    } else {
      assert !SeparatorAt(s, p);
    }
  }

  lemma {:induction false} TailShortPrefix(a: string, t: string)
    requires |a| < 3 && |t| % 3 == 0
    ensures Tail(a + t) == a + Tail(t)
    decreases |a|
  {
    if a != [] {
      assert (a + t)[1..] == a[1..] + t;
      TailShortPrefix(a[1..], t);
      assert [a[0]] + a[1..] == a;
    } else {
      assert a + t == t;
    }
  }

  lemma ModThreeSteps(n: nat)
    requires n >= 3 && n % 3 == 0
    ensures (n - 1) % 3 == 2 && (n - 2) % 3 == 1
  {
    var q := n / 3;
    assert n - 1 == 3 * (q - 1) + 2;
    assert n - 2 == 3 * (q - 1) + 1;
  }

  /** The scan emits a comma where a multiple of three characters remains. */
  lemma TailSep(t: string)
    requires t != [] && |t| % 3 == 0
    ensures Tail(t) == [','] + ([t[0]] + Tail(t[1..]))
  {
  }

  lemma TailPlain(t: string)
    requires t != [] && |t| % 3 != 0
    ensures Tail(t) == [t[0]] + Tail(t[1..])
  {
  }

  lemma CommaTriple(t: string, rest: string)
    requires |t| >= 3
    ensures [','] + ([t[0]] + ([t[1]] + ([t[2]] + rest))) == "," + t[..3] + rest
  {
  }

  /** Over three digits, the scan emits one comma and copies the three digits. */
  lemma TailThree(t: string)
    requires |t| >= 3 && |t| % 3 == 0
    ensures Tail(t) == "," + t[..3] + Tail(t[3..])
  {
    var t1, t2, t3 := t[1..], t[2..], t[3..];
    ModThreeSteps(|t|);
    TailSep(t);
    TailPlain(t1);
    TailPlain(t2);
    assert t1[0] == t[1] && t2[0] == t[2] && t1[1..] == t2 && t2[1..] == t3;
    CommaTriple(t, Tail(t3));
  }

  lemma GroupsCons(t: string)
    requires t != [] && |t| % 3 == 0
    ensures Groups(t) == "," + t[..3] + Groups(t[3..])
  {
  }

  lemma {:induction false} TailIsGroups(t: string)
    requires |t| % 3 == 0
    ensures Tail(t) == Groups(t)
    decreases |t|
  {
    if t != [] {
      TailThree(t);
      TailIsGroups(t[3..]);
      GroupsCons(t);
    }
  }

  /** After the first digit of a digit string, the replacement yields the groups. */
  lemma AfterLead(ds: string)
    requires |ds| >= 1 && AllDigits(ds)
    ensures Tail(ds[1..]) == ds[1..LeadLength(|ds|)] + Groups(ds[LeadLength(|ds|)..])
  {
    var k := LeadLength(|ds|);
    assert ds[1..] == ds[1..k] + ds[k..];
    TailShortPrefix(ds[1..k], ds[k..]);
    TailIsGroups(ds[k..]);
  }

  /** For a digit string the replacement keeps the first digit and groups the rest. */
  lemma InsertSeparatorsDigits(ds: string)
    requires |ds| >= 1 && AllDigits(ds)
    ensures InsertSeparators(ds) == Grouped(ds)
  {
    var k := LeadLength(|ds|);
    assert !NotWordBoundary(ds, 0) by {
      assert IsWordChar(ds[0]);
    }
    assert InsertFrom(ds, 0) == [ds[0]] + InsertFrom(ds, 1);
    InsertFromDigits(ds, 0, 1);
    AfterLead(ds);
    calc {
      InsertFrom(ds, 0);
      [ds[0]] + Tail(ds[1..]);
      [ds[0]] + (ds[1..k] + Groups(ds[k..]));
      ([ds[0]] + ds[1..k]) + Groups(ds[k..]);
      { assert [ds[0]] + ds[1..k] == ds[..k]; }
      ds[..k] + Groups(ds[k..]);
    }
  }

  /** A minus sign in front is copied and changes nothing after it. */
  lemma InsertSeparatorsNegative(ds: string)
    requires |ds| >= 1 && AllDigits(ds)
    ensures InsertSeparators("-" + ds) == "-" + Grouped(ds)
  {
    var s := "-" + ds;
    assert s[0] == '-' && s[1] == ds[0];
    assert !IsDigit(s[0]) && !IsWordChar(s[0]) && IsWordChar(s[1]);
    assert !SeparatorAt(s, 0);
    assert !SeparatorAt(s, 1);
    InsertFromDigits(s, 1, 2);
    assert s[2..] == ds[1..];
    InsertSeparatorsDigits(ds);
    assert InsertFrom(ds, 0) == [ds[0]] + InsertFrom(ds, 1);
    InsertFromDigits(ds, 0, 1);
    assert InsertFrom(s, 1) == [ds[0]] + InsertFrom(s, 2);
  }

  /** The literal reading of the regular expression gives the intended grouping. */
  lemma FormatNumberIsGrouped(n: int)
    ensures n < 0 ==> FormatNumber(n) == "-" + Grouped(Decimal(-n))
    ensures n >= 0 ==> FormatNumber(n) == Grouped(Decimal(n))
  {
    if n < 0 {
      InsertSeparatorsNegative(Decimal(-n));
    } else {
      InsertSeparatorsDigits(Decimal(n));
    }
  }

  // ---------------------------------------------------------------------
  // Properties of the grouping

  lemma {:induction false} StripAppend(a: string, b: string)
    ensures StripCommas(a + b) == StripCommas(a) + StripCommas(b)
    ensures CommaCount(a + b) == CommaCount(a) + CommaCount(b)
    decreases |a|
  {
    if a != [] {
      assert (a + b)[1..] == a[1..] + b;
      StripAppend(a[1..], b);
    } else {
      assert a + b == b;
    }
  }

  lemma {:induction false} StripDigits(s: string)
    requires AllDigits(s)
    ensures StripCommas(s) == s && CommaCount(s) == 0
    decreases |s|
  {
    if s != [] {
      StripDigits(s[1..]);
    }
  }

  /** Deleting the commas of the ",ddd" groups gives the digits back, one comma per group. */
  lemma {:induction false} GroupsStrips(t: string)
    requires |t| % 3 == 0 && AllDigits(t)
    ensures StripCommas(Groups(t)) == t
    ensures CommaCount(Groups(t)) == |t| / 3
    decreases |t|
  {
    if t != [] {
      var rest := Groups(t[3..]);
      GroupsStrips(t[3..]);
      assert Groups(t) == "," + (t[..3] + rest);
      StripAppend(",", t[..3] + rest);
      StripAppend(t[..3], rest);
      StripDigits(t[..3]);
      assert StripCommas(",") == [] && CommaCount(",") == 1;
      assert t[..3] + t[3..] == t;
    }
  }

  /** Text without commas in front of a well-separated text keeps it well separated. */
  lemma TriplesAfterPlain(a: string, b: string)
    requires forall i :: 0 <= i < |a| ==> a[i] != ','
    requires CommasSeparateTriples(b)
    ensures CommasSeparateTriples(a + b)
  {
    var r := a + b;
    forall i | 0 <= i < |a|
      ensures r[i] != ','
    {
      assert r[i] == a[i];
    }
    forall i | 0 <= i < |r| && r[i] == ','
      ensures i + 3 < |r| && IsDigit(r[i + 1]) && IsDigit(r[i + 2]) && IsDigit(r[i + 3])
      ensures i + 4 == |r| || r[i + 4] == ','
    {
      if i >= |a| {
        var j := i - |a|;
        assert r[i] == b[j];
        assert r[i + 1] == b[j + 1] && r[i + 2] == b[j + 2] && r[i + 3] == b[j + 3];
        if i + 4 < |r| {
          assert r[i + 4] == b[j + 4];
        }
      }
    }
  }

  /** A comma in front of three digits followed by a well-separated text keeps it well separated. */
  lemma TriplesAfterComma(m: string)
    requires |m| >= 3 && IsDigit(m[0]) && IsDigit(m[1]) && IsDigit(m[2])
    requires |m| == 3 || m[3] == ','
    requires CommasSeparateTriples(m)
    ensures CommasSeparateTriples("," + m)
  {
    var g := "," + m;
    forall i | 0 <= i < |g| && g[i] == ','
      ensures i + 3 < |g| && IsDigit(g[i + 1]) && IsDigit(g[i + 2]) && IsDigit(g[i + 3])
      ensures i + 4 == |g| || g[i + 4] == ','
    {
      assert g[i + 1] == m[i] && g[i + 2] == m[i + 1] && g[i + 3] == m[i + 2];
      if i >= 1 {
        assert g[i] == m[i - 1];
      }
      if i + 4 < |g| {
        assert g[i + 4] == m[i + 3];
      }
    }
  }

  /** The ",ddd" groups: every comma is followed by three digits, and the text ends with a digit. */
  lemma {:induction false} GroupsTriples(t: string)
    requires |t| % 3 == 0 && AllDigits(t)
    ensures CommasSeparateTriples(Groups(t))
    ensures t != [] ==> Groups(t)[0] == ',' && IsDigit(Groups(t)[|Groups(t)| - 1])
    decreases |t|
  {
    if t != [] {
      var rest := Groups(t[3..]);
      GroupsTriples(t[3..]);
      var d := t[..3];
      assert IsDigit(d[0]) && IsDigit(d[1]) && IsDigit(d[2]);
      TriplesAfterPlain(d, rest);
      var m := d + rest;
      assert m[0] == d[0] && m[1] == d[1] && m[2] == d[2];
      assert rest != [] ==> m[3] == rest[0];
      assert rest != [] ==> m[|m| - 1] == rest[|rest| - 1];
      TriplesAfterComma(m);
      GroupsCons(t);
      assert Groups(t) == "," + m;
    }
  }

  /** Deleting the commas of the grouping gives the digits back; there are (digits - 1) / 3 commas. */
  lemma GroupedStrips(ds: string)
    requires |ds| >= 1 && AllDigits(ds)
    ensures StripCommas(Grouped(ds)) == ds
    ensures CommaCount(Grouped(ds)) == (|ds| - 1) / 3
  {
    var k := LeadLength(|ds|);
    GroupsStrips(ds[k..]);
    StripAppend(ds[..k], Groups(ds[k..]));
    StripDigits(ds[..k]);
    assert ds[..k] + ds[k..] == ds;
  }

  /** The grouping starts with its leading group, ends with a digit, and every comma separates three digits. */
  lemma GroupedTriples(ds: string)
    requires |ds| >= 1 && AllDigits(ds)
    ensures CommasSeparateTriples(Grouped(ds))
    ensures IsDigit(Grouped(ds)[0]) && IsDigit(Grouped(ds)[|Grouped(ds)| - 1])
    ensures var k := LeadLength(|ds|);
      Grouped(ds)[..k] == ds[..k] && (k == |Grouped(ds)| || Grouped(ds)[k] == ',')
  {
    var k := LeadLength(|ds|);
    var lead, rest := ds[..k], Groups(ds[k..]);
    GroupsTriples(ds[k..]);
    forall i | 0 <= i < k
      ensures lead[i] != ','
    {
      assert lead[i] == ds[i];
    }
    TriplesAfterPlain(lead, rest);
    var r := Grouped(ds);
    assert r == lead + rest;
    assert r[..k] == lead;
    assert r[0] == ds[0];
    if k < |r| {
      assert r[k] == rest[0];
      assert r[|r| - 1] == rest[|rest| - 1];
    } else {
      assert r[|r| - 1] == ds[k - 1];
    }
  }

  /** One to three digits are left as they are. */
  lemma GroupedShort(ds: string)
    requires 1 <= |ds| <= 3
    ensures Grouped(ds) == ds
  {
    assert ds[LeadLength(|ds|)..] == [];
  }

  lemma GroupedProperties(ds: string)
    requires |ds| >= 1 && AllDigits(ds)
    ensures StripCommas(Grouped(ds)) == ds
    ensures CommaCount(Grouped(ds)) == (|ds| - 1) / 3
    ensures CommasSeparateTriples(Grouped(ds))
    ensures IsDigit(Grouped(ds)[0]) && IsDigit(Grouped(ds)[|Grouped(ds)| - 1])
    ensures var k := LeadLength(|ds|);
      Grouped(ds)[..k] == ds[..k] && (k == |Grouped(ds)| || Grouped(ds)[k] == ',')
    ensures |ds| <= 3 ==> Grouped(ds) == ds
  {
    GroupedStrips(ds);
    GroupedTriples(ds);
    if |ds| <= 3 {
      GroupedShort(ds);
    }
  }

  // ---------------------------------------------------------------------
  // What formatNumber promises

  /** Deleting the commas gives back `n.toString()`. */
  lemma FormatNumberStripsToString(n: int)
    ensures StripCommas(FormatNumber(n)) == ToString(n)
  {
    FormatNumberIsGrouped(n);
    if n < 0 {
      var ds := Decimal(-n);
      var g := Grouped(ds);
      GroupedStrips(ds);
      StripAppend("-", g);
      assert StripCommas("-") == "-";
      calc {
        StripCommas(FormatNumber(n));
        StripCommas("-" + g);
        StripCommas("-") + StripCommas(g);
        "-" + ds;
      }
    } else {
      GroupedStrips(Decimal(n));
    }
  }

  /** Below 1000 nothing is inserted. */
  lemma FormatNumberSmall(n: int)
    requires 0 <= n < 1000
    ensures FormatNumber(n) == ToString(n)
  {
    FormatNumberIsGrouped(n);
    GroupedShort(Decimal(n));
  }

  /**
   * For a non-negative integer: a leading group of one to three digits, no
   * leading or trailing comma, every comma followed by exactly three digits,
   * and (digits - 1) / 3 commas in all.
   */
  lemma FormatNumberShape(n: nat)
    ensures var r, ds := FormatNumber(n), ToString(n);
      && CommasSeparateTriples(r)
      && r[0] != ',' && r[|r| - 1] != ','
      && CommaCount(r) == (|ds| - 1) / 3
      && exists k :: 1 <= k <= 3 && k <= |r| && AllDigits(r[..k]) && (k == |r| || r[k] == ',')
  {
    FormatNumberIsGrouped(n);
    var ds := Decimal(n);
    GroupedStrips(ds);
    GroupedTriples(ds);
    var k := LeadLength(|ds|);
    var r := FormatNumber(n);
    assert ToString(n) == ds;
    assert r[..k] == ds[..k];
    assert AllDigits(r[..k]);
  }
}
