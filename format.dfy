/** The textual host of an IPv4 request, as `util.format('%d.%d.%d.%d', ...)` renders it. */
module Format {
  import opened Bytes

  predicate IsDigits(s: string)
  {
    forall i :: 0 <= i < |s| ==> '0' <= s[i] <= '9'
  }

  function Digit(d: nat): (c: char)
    requires d < 10
    ensures '0' <= c <= '9' && c as int - '0' as int == d
  {
    ('0' as int + d) as char
  }

  /** `%d` of a non-negative integer: its decimal digits, most significant first. */
  function Decimal(n: nat): (r: string)
    ensures |r| >= 1 && IsDigits(r)
    ensures r[0] == '0' <==> n == 0
    ensures n < 10 ==> |r| == 1
    ensures n < 100 ==> |r| <= 2
    ensures n < 1000 ==> |r| <= 3
    decreases n
  {
    if n < 10 then [Digit(n)] else Decimal(n / 10) + [Digit(n % 10)]
  }

  /** The number a string of decimal digits denotes. */
  function DecimalValue(s: string): nat
    requires IsDigits(s)
  {
    if s == [] then 0 else DecimalValue(s[..|s| - 1]) * 10 + (s[|s| - 1] as int - '0' as int)
  }

  lemma {:induction false} DecimalRoundTrip(n: nat)
    ensures DecimalValue(Decimal(n)) == n
    decreases n
  {
    if n >= 10 {
      DecimalRoundTrip(n / 10);
      var s := Decimal(n);
      assert s[..|s| - 1] == Decimal(n / 10);
    }
  }

  /** `util.format('%d.%d.%d.%d', a, b, c, d)` (index.js:108). */
  function Dotted(a: byte, b: byte, c: byte, d: byte): (r: string)
    ensures 7 <= |r| <= 15
    ensures forall i :: 0 <= i < |r| ==> r[i] == '.' || '0' <= r[i] <= '9'
  {
    Decimal(a as nat) + "." + Decimal(b as nat) + "." + Decimal(c as nat) + "." + Decimal(d as nat)
  }

  /** The '.'-separated fields of a string (always at least one, possibly empty). */
  function Split(s: string): (r: seq<string>)
    ensures |r| >= 1
    decreases |s|
  {
    if s == [] then [[]]
    else if s[0] == '.' then [[]] + Split(s[1..])
    else var t := Split(s[1..]); [[s[0]] + t[0]] + t[1..]
  }

  lemma {:induction false} SplitField(x: string)
    requires '.' !in x
    ensures Split(x) == [x]
    decreases |x|
  {
    if x != [] {
      SplitField(x[1..]);
      assert [x[0]] + x[1..] == x;
    }
  }

  lemma {:induction false} SplitJoin(x: string, rest: string)
    requires '.' !in x
    ensures Split(x + "." + rest) == [x] + Split(rest)
    decreases |x|
  {
    if x == [] {
      assert (x + "." + rest)[1..] == rest;
    } else {
      var s := x + "." + rest;
      assert s[1..] == x[1..] + "." + rest;
      SplitJoin(x[1..], rest);
      assert [x[0]] + x[1..] == x;
    }
  }

  lemma NoDotInDecimal(n: nat)
    ensures '.' !in Decimal(n)
  {
  }

  lemma DottedShape(da: string, db: string, dc: string, dd: string)
    ensures da + "." + db + "." + dc + "." + dd == da + "." + (db + "." + (dc + "." + dd))
  {
  }

  lemma SplitDotted(da: string, db: string, dc: string, dd: string)
    requires '.' !in da && '.' !in db && '.' !in dc && '.' !in dd
    ensures Split(da + "." + db + "." + dc + "." + dd) == [da, db, dc, dd]
  {
    DottedShape(da, db, dc, dd);
    var t3 := dc + "." + dd;
    var t2 := db + "." + t3;
    SplitField(dd);
    SplitJoin(dc, dd);
    assert Split(t3) == [dc, dd];
    SplitJoin(db, t3);
    assert Split(t2) == [db, dc, dd];
    SplitJoin(da, t2);
  }

  /** The dotted form has exactly four fields, and each reads back as its octet. */
  lemma DottedRoundTrip(a: byte, b: byte, c: byte, d: byte)
    ensures Split(Dotted(a, b, c, d)) == [Decimal(a as nat), Decimal(b as nat), Decimal(c as nat), Decimal(d as nat)]
    ensures var f := Split(Dotted(a, b, c, d));
      DecimalValue(f[0]) == a as nat && DecimalValue(f[1]) == b as nat &&
      DecimalValue(f[2]) == c as nat && DecimalValue(f[3]) == d as nat
  {
    NoDotInDecimal(a as nat); NoDotInDecimal(b as nat); NoDotInDecimal(c as nat); NoDotInDecimal(d as nat);
    SplitDotted(Decimal(a as nat), Decimal(b as nat), Decimal(c as nat), Decimal(d as nat));
    DecimalRoundTrip(a as nat); DecimalRoundTrip(b as nat); DecimalRoundTrip(c as nat); DecimalRoundTrip(d as nat);
  }

  lemma DottedLoopback()
    ensures Dotted(127, 0, 0, 1) == "127.0.0.1"
  {
    assert Decimal(1) == "1" && Decimal(0) == "0";
    assert Decimal(12) == Decimal(1) + [Digit(2)] == "12";
    assert Decimal(127) == Decimal(12) + [Digit(7)] == "127";
  }
}
