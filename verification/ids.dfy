/** Length-derived record ids: `prefix + (n).toString().padStart(3, '0')`. */
module Ids {
  import opened Wrappers

  predicate IsDigit(c: char) { '0' <= c <= '9' }

  predicate AllDigits(s: string) { forall i :: 0 <= i < |s| ==> IsDigit(s[i]) }

  function DigitChar(d: nat): (c: char)
    requires d < 10
    ensures IsDigit(c)
  {
    ((48 + d) as char)
  }

  function DigitValue(c: char): (d: nat)
    requires IsDigit(c)
    ensures d < 10
  {
    (c as int) - 48
  }

  /** Base-10 rendering of a non-negative integer, as `Number.prototype.toString()`:
      at least one digit, and no leading zero unless the number is zero. */
  function Decimal(n: nat): (s: string)
    ensures |s| >= 1 && AllDigits(s)
    ensures s[0] == '0' <==> n == 0
    ensures |s| == 1 <==> n < 10
    ensures |s| <= 2 <==> n < 100
    ensures |s| <= 3 <==> n < 1000
  {
    if n < 10 then [DigitChar(n)] else Decimal(n / 10) + [DigitChar(n % 10)]
  }

  /** The numeric value of a string of digits; leading zeros are allowed. */
  function Value(s: string): nat
    requires AllDigits(s)
  {
    if |s| == 0 then 0 else Value(s[..|s| - 1]) * 10 + DigitValue(s[|s| - 1])
  }

  function Zeros(k: nat): (z: string)
    ensures |z| == k && AllDigits(z)
    ensures forall i :: 0 <= i < k ==> z[i] == '0'
  {
    seq(k, _ => '0')
  }

  /** `(n).toString().padStart(3, '0')`: left-padded with zeros to three
      characters; numbers of four or more digits are not truncated. */
  function Pad3(n: nat): (s: string)
    ensures AllDigits(s)
    ensures |s| >= 3
    ensures |s| == 3 <==> n < 1000
  {
    var d := Decimal(n);
    if |d| < 3 then Zeros(3 - |d|) + d else d
  }

  /** The id given to the `n`-th record of a collection. */
  function MakeId(prefix: string, n: nat): (id: string)
    ensures |id| == |prefix| + |Pad3(n)|
    ensures id[..|prefix|] == prefix
  {
    prefix + Pad3(n)
  }

  /** The id the providers assign to a new record: one past the current length. */
  function NextId(prefix: string, count: nat): string
  {
    MakeId(prefix, count + 1)
  }

  /** Reads the sequence number back out of an id, if the id has the shape
      `prefix` followed by digits. */
  function SeqOf(prefix: string, id: string): (r: Option<nat>)
    ensures r.Some? ==> |prefix| < |id| && id[..|prefix|] == prefix && AllDigits(id[|prefix|..])
    ensures r.Some? ==> r.value == Value(id[|prefix|..])
  {
    if |prefix| < |id| && id[..|prefix|] == prefix && AllDigits(id[|prefix|..])
    then Some(Value(id[|prefix|..]))
    else None
  }

  lemma {:induction false} DecimalRoundTrip(n: nat)
    ensures Value(Decimal(n)) == n
  {
    if n >= 10 {
      var d := Decimal(n);
      DecimalRoundTrip(n / 10);
      assert d[..|d| - 1] == Decimal(n / 10);
    }
  }

  lemma {:induction false} LeadingZeroValue(s: string)
    requires AllDigits(s)
    ensures AllDigits(['0'] + s) && Value(['0'] + s) == Value(s)
  {
    var t := ['0'] + s;
    if |s| > 0 {
      LeadingZeroValue(s[..|s| - 1]);
      assert t[..|t| - 1] == ['0'] + s[..|s| - 1];
    }
  }

  lemma {:induction false} ZerosValue(k: nat, s: string)
    requires AllDigits(s)
    ensures AllDigits(Zeros(k) + s) && Value(Zeros(k) + s) == Value(s)
  {
    if k > 0 {
      ZerosValue(k - 1, s);
      assert Zeros(k) + s == ['0'] + (Zeros(k - 1) + s);
      LeadingZeroValue(Zeros(k - 1) + s);
    } else {
      assert Zeros(k) + s == s;
    }
  }

  /** Padding never changes the number: the digits read back as `n`. */
  lemma Pad3RoundTrip(n: nat)
    ensures Value(Pad3(n)) == n
  {
    var d := Decimal(n);
    DecimalRoundTrip(n);
    if |d| < 3 {
      ZerosValue(3 - |d|, d);
    }
  }

  /** Distinct sequence numbers always give distinct padded strings. */
  lemma Pad3Injective(a: nat, b: nat)
    ensures Pad3(a) == Pad3(b) <==> a == b
  {
    Pad3RoundTrip(a);
    Pad3RoundTrip(b);
  }

  /** Below 1000 the padded string is exactly the three decimal digits. */
  lemma Pad3Digits(n: nat)
    requires n < 1000
    ensures Pad3(n) == [DigitChar(n / 100), DigitChar(n / 10 % 10), DigitChar(n % 10)]
  {
    var d := Decimal(n);
    if n < 10 {
      assert d == [DigitChar(n)];
      assert Pad3(n) == Zeros(2) + d;
    } else if n < 100 {
      assert Decimal(n / 10) == [DigitChar(n / 10)];
      assert n / 10 % 10 == n / 10 && n / 100 == 0;
      assert Pad3(n) == Zeros(1) + d;
    } else {
      assert Decimal(n / 10) == [DigitChar(n / 100)] + [DigitChar(n / 10 % 10)];
      assert Pad3(n) == d;
    }
  }

  /** `SeqOf` inverts `MakeId`. */
  lemma SeqOfMakeId(prefix: string, n: nat)
    ensures SeqOf(prefix, MakeId(prefix, n)) == Some(n)
  {
    var id := MakeId(prefix, n);
    assert id[|prefix|..] == Pad3(n);
    Pad3RoundTrip(n);
  }

  lemma MakeIdInjective(prefix: string, a: nat, b: nat)
    ensures MakeId(prefix, a) == MakeId(prefix, b) <==> a == b
  {
    SeqOfMakeId(prefix, a);
    SeqOfMakeId(prefix, b);
  }

  /** The ids of a collection are `prefix001`, `prefix002`, ... in list order. */
  predicate SequentialIds(prefix: string, ids: seq<string>)
  {
    forall i :: 0 <= i < |ids| ==> ids[i] == MakeId(prefix, i + 1)
  }

  /** In a sequentially numbered collection the length-derived next id is fresh,
      and appending it keeps the numbering sequential. */
  lemma NextIdFresh(prefix: string, ids: seq<string>)
    requires SequentialIds(prefix, ids)
    ensures NextId(prefix, |ids|) !in ids
    ensures SequentialIds(prefix, ids + [NextId(prefix, |ids|)])
  {
    forall i | 0 <= i < |ids|
      ensures ids[i] != NextId(prefix, |ids|)
    {
      MakeIdInjective(prefix, i + 1, |ids| + 1);
    }
    SequentialIdsSnoc(prefix, ids);
  }

  /** Appending the length-derived next id keeps the numbering sequential. */
  lemma SequentialIdsSnoc(prefix: string, ids: seq<string>)
    requires SequentialIds(prefix, ids)
    ensures SequentialIds(prefix, ids + [NextId(prefix, |ids|)])
  {
    var ids' := ids + [NextId(prefix, |ids|)];
    forall i | 0 <= i < |ids'|
      ensures ids'[i] == MakeId(prefix, i + 1)
    {
      if i < |ids| {
        assert ids'[i] == ids[i] == MakeId(prefix, i + 1);
      } else {
        assert i == |ids| && ids'[i] == NextId(prefix, |ids|) == MakeId(prefix, |ids| + 1);
      }
    }
  }

  /** Sequentially numbered ids are pairwise distinct. */
  lemma SequentialIdsDistinct(prefix: string, ids: seq<string>)
    requires SequentialIds(prefix, ids)
    ensures forall i, j :: 0 <= i < j < |ids| ==> ids[i] != ids[j]
  {
    forall i, j | 0 <= i < j < |ids|
      ensures ids[i] != ids[j]
    {
      MakeIdInjective(prefix, i + 1, j + 1);
    }
  }
}
