/** The record file of the FOTA monitory service: five numbers in decimal, separated by commas. */
module FmsRecord {
  import opened Common
  import opened Decimals

  const SEPARATOR: char := ','
  /** Capacity of the buffers that a record is built and read in. */
  const RECORD_CAPACITY: nat := 30

  const INT_MIN: int := -0x8000_0000
  const INT_MAX: int := 0x7FFF_FFFF

  type Int32 = n: int | INT_MIN <= n <= INT_MAX

  /** Reason, bearer, drive, size and 3G flag of an interrupt. */
  datatype Record = Record(reason: Int32, bearer: Int32, drive: Int32, size: Int32, wcdma: Int32)

  function FieldsOf(r: Record): (fs: seq<Int32>)
    ensures |fs| == 5
  {
    [r.reason, r.bearer, r.drive, r.size, r.wcdma]
  }

  /** The fields in decimal, with separators between them. */
  function EncodeFields(fs: seq<Int32>): string {
    if fs == [] then ""
    else if |fs| == 1 then Decimal(fs[0])
    else Decimal(fs[0]) + ([SEPARATOR] + EncodeFields(fs[1..]))
  }

  function Encode(r: Record): string {
    EncodeFields(FieldsOf(r))
  }

  /** The record's text names its members in this order, each in decimal. */
  lemma RecordText(r: Record)
    ensures Encode(r) ==
            Decimal(r.reason) + ([','] + (Decimal(r.bearer) + ([','] + (Decimal(r.drive) + ([',']
            + (Decimal(r.size) + ([','] + Decimal(r.wcdma))))))))
  {
    hide Decimal;
    EncodeStep(r.reason, [r.bearer, r.drive, r.size, r.wcdma]);
    EncodeStep(r.bearer, [r.drive, r.size, r.wcdma]);
    EncodeStep(r.drive, [r.size, r.wcdma]);
    EncodeStep(r.size, [r.wcdma]);
    assert [r.reason] + [r.bearer, r.drive, r.size, r.wcdma] == FieldsOf(r);
    assert [r.bearer] + [r.drive, r.size, r.wcdma] == [r.bearer, r.drive, r.size, r.wcdma];
    assert [r.drive] + [r.size, r.wcdma] == [r.drive, r.size, r.wcdma];
    assert [r.size] + [r.wcdma] == [r.size, r.wcdma];
  }

  lemma EncodeStep(n: Int32, fs: seq<Int32>)
    requires fs != []
    ensures EncodeFields([n] + fs) == Decimal(n) + ([SEPARATOR] + EncodeFields(fs))
    ensures |fs| == 1 ==> EncodeFields(fs) == Decimal(fs[0])
  {
    assert ([n] + fs)[1..] == fs;
  }

  // ------------------------------------------------------------------------------------------
  // Reading numbers
  // ------------------------------------------------------------------------------------------

  /** Number of digits at the front of a text. */
  function DigitRun(s: string): (n: nat)
    ensures n <= |s| && forall i :: 0 <= i < n ==> IsDigit(s[i])
    ensures n < |s| ==> !IsDigit(s[n])
  {
    if s == "" || !IsDigit(s[0]) then 0
    else
      var n := DigitRun(s[1..]);
      assert forall i :: 1 <= i < n + 1 ==> s[i] == s[1..][i - 1];
      n + 1
  }

  predicate HasSign(s: string) {
    s != "" && (s[0] == '-' || s[0] == '+')
  }

  function Unsigned(s: string): string {
    if HasSign(s) then s[1..] else s
  }

  function Magnitude(n: int): nat {
    if n < 0 then -n else n
  }

  function Signed(s: string, n: int): int {
    if s != "" && s[0] == '-' then -n else n
  }

  /** The number at the front of a text, whatever follows its digits; `None` when there are no digits
      or the number is out of range, and then the analyser leaves its result as it is. */
  function ValueAtFront(s: string): Option<Int32> {
    var t := Unsigned(s);
    var n := DigitRun(t);
    if n == 0 then None
    else
      var v := Signed(s, Value(t[..n]));
      if INT_MIN <= v <= INT_MAX then Some(v) else None
  }

  /** The fields of a text: every field but the last must be followed by a separator and not be
      empty; the last is whatever remains. */
  function ReadFields(data: string, n: nat): (fs: seq<Option<Int32>>)
    ensures |fs| <= n
  {
    if data == "" || n == 0 then []
    else if n == 1 then [ValueAtFront(data)]
    else
      var len := Locate(data, SEPARATOR);
      if len <= 0 then [] else [ValueAtFront(data[..len])] + ReadFields(data[len + 1..], n - 1)
  }

  // ------------------------------------------------------------------------------------------
  // The file
  // ------------------------------------------------------------------------------------------

  /** The content after writing `data` at the front of the file, which is not cut. */
  function Overwritten(content: string, data: string): (r: string)
    ensures |r| >= |data| && r[..|data|] == data
  {
    data + (if |data| < |content| then content[|data|..] else "")
  }

  /** What reading sees of a file. */
  function Seen(content: string): string {
    if |content| <= RECORD_CAPACITY then content else content[..RECORD_CAPACITY]
  }

  class RecordFile {
    var content: string
    var sessionCount: int

    constructor (content: string)
      ensures this.content == content && sessionCount == 0
    {
      this.content := content;
      sessionCount := 0;
    }

    /** Appends a number to the record; false stands for the panic on a full buffer. */
    method AppendField(data: string, value: Int32, ghost front: seq<Int32>) returns (ok: bool, data': string)
      requires front != [] ==> data == EncodeFields(front)
      requires front == [] ==> data == ""
      ensures ok ==> data' == EncodeFields(front + [value]) && |data'| <= RECORD_CAPACITY
      ensures !ok ==> |EncodeFields(front + [value])| > RECORD_CAPACITY
    {
      EncodeAppend(front, value);
      data' := data;
      var temp := Decimal(value);
      if data != "" {
        data' := data' + [SEPARATOR];
      } else {
        EncodedIsNotEmpty(front);
      }
      data' := data' + temp;
      ok := |data'| <= RECORD_CAPACITY;
    }

    /** Writes a record unless a request is pending; false stands for the panic on a full buffer. */
    method WriteToFile(r: Record) returns (ok: bool)
      modifies this`content
      ensures ok <==> sessionCount != 0 || |Encode(r)| <= RECORD_CAPACITY
      ensures content == if ok && sessionCount == 0 then Overwritten(old(content), Encode(r)) else old(content)
    {
      hide EncodeFields;
      ok := true;
      if sessionCount == 0 {
        ghost var fs := FieldsOf(r);
        assert fs == [] + [r.reason] + [r.bearer] + [r.drive] + [r.size] + [r.wcdma];
        EncodeGrows([], fs);
        EncodeGrows([] + [r.reason], fs);
        EncodeGrows([] + [r.reason] + [r.bearer], fs);
        EncodeGrows([] + [r.reason] + [r.bearer] + [r.drive], fs);
        EncodeGrows([] + [r.reason] + [r.bearer] + [r.drive] + [r.size], fs);
        var data := "";
        ok, data := AppendField(data, r.reason, []);
        if ok {
          ok, data := AppendField(data, r.bearer, [] + [r.reason]);
        }
        if ok {
          ok, data := AppendField(data, r.drive, [] + [r.reason] + [r.bearer]);
        }
        if ok {
          ok, data := AppendField(data, r.size, [] + [r.reason] + [r.bearer] + [r.drive]);
        }
        if ok {
          ok, data := AppendField(data, r.wcdma, [] + [r.reason] + [r.bearer] + [r.drive] + [r.size]);
        }
        if ok {
          content := Overwritten(content, data);
        }
      }
    }

    /** Reads a record: the fields that could be read, in order.  Two buffers take turns. */
    method ReadFromFile() returns (found: bool, fields: seq<Option<Int32>>)
      ensures found <==> content != ""
      ensures fields == ReadFields(Seen(content), 5)
    {
      hide ValueAtFront;
      fields := [];
      if content == "" {
        return false, [];
      }
      found := true;
      var data, data1 := Seen(content), "";
      ghost var whole := data;
      var n := 5;
      while n > 1
        invariant 1 <= n <= 5
        invariant data1 == ""
        invariant ReadFields(whole, 5) == fields + ReadFields(data, n)
      {
        var len := Locate(data, SEPARATOR);
        if data == "" || len <= 0 {
          assert ReadFields(data, n) == [] && fields + [] == fields;
          return;
        }
        var value := ValueAtFront(data[..len]);
        data1 := data[len + 1..];
        data := "";
        Associate(fields, [value], ReadFields(data1, n - 1));
        fields := fields + [value];
        data, data1 := data1, data;
        n := n - 1;
      }
      assert ReadFields("", 1) == [] && fields + [] == fields;
      if data != "" {
        fields := fields + [ValueAtFront(data)];
      }
    }
  }

  // ------------------------------------------------------------------------------------------
  // Building the record
  // ------------------------------------------------------------------------------------------

  lemma {:induction false} EncodeAppend(fs: seq<Int32>, value: Int32)
    ensures EncodeFields(fs + [value]) ==
            if fs == [] then Decimal(value) else EncodeFields(fs) + [SEPARATOR] + Decimal(value)
  {
    if |fs| > 1 {
      assert (fs + [value])[1..] == fs[1..] + [value];
      EncodeAppend(fs[1..], value);
      Regroup(Decimal(fs[0]), SEPARATOR, EncodeFields(fs[1..]), Decimal(value));
    } else if |fs| == 1 {
      assert (fs + [value])[1..] == [value];
      Associate(Decimal(fs[0]), [SEPARATOR], Decimal(value));
    }
  }

  lemma EncodedIsNotEmpty(fs: seq<Int32>)
    ensures fs != [] ==> EncodeFields(fs) != ""
  {
  }

  /** The text of more fields is longer. */
  lemma {:induction false} EncodeGrows(front: seq<Int32>, fs: seq<Int32>)
    requires front <= fs && front != fs
    ensures front + [fs[|front|]] <= fs
    ensures |EncodeFields(front + [fs[|front|]])| <= |EncodeFields(fs)|
    decreases |fs| - |front|
  {
    var next := front + [fs[|front|]];
    if next != fs {
      EncodeGrows(next, fs);
      EncodeAppend(next, fs[|next|]);
    }
  }

  // ------------------------------------------------------------------------------------------
  // Round trip
  // ------------------------------------------------------------------------------------------

  lemma {:induction false} RunOfDigits(d: string, t: string)
    requires forall i :: 0 <= i < |d| ==> IsDigit(d[i])
    ensures DigitRun(d + t) == |d| + DigitRun(t)
  {
    if d == "" {
      assert d + t == t;
    } else {
      assert (d + t)[1..] == d[1..] + t;
      RunOfDigits(d[1..], t);
    }
  }

  lemma TenTimes(v: int, p: int)
    ensures v * (10 * p) == 10 * (v * p)
  {
  }

  lemma {:induction false} ValueOfConcat(a: string, b: string)
    requires forall i :: 0 <= i < |a| ==> IsDigit(a[i])
    requires forall i :: 0 <= i < |b| ==> IsDigit(b[i])
    ensures Value(a + b) == Value(a) * Power10(|b|) + Value(b)
  {
    if b == "" {
      assert a + b == a;
    } else {
      var init := b[..|b| - 1];
      assert (a + b)[..|a + b| - 1] == a + init;
      ValueOfConcat(a, init);
      assert Value(a + b) == 10 * Value(a + init) + DigitValue(b[|b| - 1]);
      TenTimes(Value(a), Power10(|init|));
    }
  }

  lemma SignAndDigits(n: Int32, t: string)
    ensures Unsigned(Decimal(n) + t) == Digits(Magnitude(n)) + t
    ensures forall v :: Signed(Decimal(n) + t, v) == if n < 0 then -v else v
  {
    var d := Digits(Magnitude(n));
    var s := Decimal(n) + t;
    assert IsDigit(d[0]);
    if n < 0 {
      assert s[0] == '-' && s[1..] == d + t;
    } else {
      assert s == d + t && s[0] == d[0];
    }
  }

  /** Reading a printed number that is followed by some text. */
  lemma DecimalAtFront(n: Int32, t: string)
    ensures var v: int := Value(Digits(Magnitude(n)) + t[..DigitRun(t)]);
            var w: int := if n < 0 then -v else v;
            ValueAtFront(Decimal(n) + t) == if INT_MIN <= w <= INT_MAX then Some(w) else None
  {
    hide DigitRun;
    hide Digits;
    hide Decimal;
    hide Value;
    hide Unsigned;
    hide Signed;
    var d := Digits(Magnitude(n));
    SignAndDigits(n, t);
    RunOfDigits(d, t);
    assert (d + t)[..|d| + DigitRun(t)] == d + t[..DigitRun(t)];
  }

  lemma MultipliedGrows(m: nat, p: nat)
    requires p >= 10
    ensures m * p >= 10 * m
  {
    assert m * p == m * (p - 10) + m * 10;
  }

  lemma ShiftedValue(m: nat, t: string)
    ensures var run := DigitRun(t);
            var v := Value(Digits(m) + t[..run]);
            v == m <==> run == 0 || (m == 0 && Value(t[..run]) == 0)
  {
    hide Digits;
    hide DigitRun;
    var run := DigitRun(t);
    ValueOfConcat(Digits(m), t[..run]);
    ValueOfDigits(m);
    if run == 0 {
      assert t[..run] == "" && Value("") == 0;
    } else {
      assert Power10(run) == 10 * Power10(run - 1);
      MultipliedGrows(m, Power10(run));
    }
  }

  /** The digits of the text that follows change what is read, unless they are zeros after a zero. */
  lemma FollowedByDigitsIff(n: Int32, t: string)
    ensures ValueAtFront(Decimal(n) + t) == Some(n) <==>
            DigitRun(t) == 0 || (n == 0 && Value(t[..DigitRun(t)]) == 0)
  {
    hide DigitRun;
    hide Digits;
    hide Decimal;
    hide Value;
    hide ValueAtFront;
    DecimalAtFront(n, t);
    ShiftedValue(Magnitude(n), t);
  }

  lemma DecimalHasNoSeparator(n: Int32)
    ensures SEPARATOR !in Decimal(n)
  {
    var d := Digits(Magnitude(n));
    assert forall i :: 0 <= i < |d| ==> IsDigit(d[i]);
  }

  lemma ReadStep(n: Int32, rest: string, k: nat)
    requires k > 1
    ensures ReadFields(Decimal(n) + ([SEPARATOR] + rest), k) == [Some(n)] + ReadFields(rest, k - 1)
  {
    hide ValueAtFront;
    hide Locate;
    var data := Decimal(n) + ([SEPARATOR] + rest);
    Associate(Decimal(n), [SEPARATOR], rest);
    DecimalHasNoSeparator(n);
    LocateAt(Decimal(n), SEPARATOR, rest);
    assert data[..|Decimal(n)|] == Decimal(n) && data[|Decimal(n)| + 1..] == rest;
    assert Decimal(n) + "" == Decimal(n);
    FollowedByDigitsIff(n, "");
  }

  function AllRead(fs: seq<Int32>): (r: seq<Option<Int32>>)
    ensures |r| == |fs| && forall i :: 0 <= i < |fs| ==> r[i] == Some(fs[i])
  {
    seq(|fs|, i requires 0 <= i < |fs| => Some(fs[i]))
  }

  lemma ReadLast(n: Int32, t: string)
    ensures ReadFields(EncodeFields([n]) + t, 1) == AllRead([n]) <==> ValueAtFront(Decimal(n) + t) == Some(n)
  {
    hide ValueAtFront;
    assert |Decimal(n) + t| > 0;
    assert ReadFields(Decimal(n) + t, 1) == [ValueAtFront(Decimal(n) + t)];
    assert AllRead([n]) == [Some(n)];
  }

  lemma ReadFirst(fs: seq<Int32>, t: string)
    requires |fs| > 1
    ensures ReadFields(EncodeFields(fs) + t, |fs|) == [Some(fs[0])] + ReadFields(EncodeFields(fs[1..]) + t, |fs| - 1)
    ensures AllRead(fs) == [Some(fs[0])] + AllRead(fs[1..])
  {
    hide ReadFields;
    hide Decimal;
    Associate(Decimal(fs[0]), [SEPARATOR] + EncodeFields(fs[1..]), t);
    Associate([SEPARATOR], EncodeFields(fs[1..]), t);
    ReadStep(fs[0], EncodeFields(fs[1..]) + t, |fs|);
  }

  /** Reading encoded fields that are followed by some text. */
  lemma {:induction false} ReadEncodedIff(fs: seq<Int32>, t: string)
    requires fs != []
    ensures ReadFields(EncodeFields(fs) + t, |fs|) == AllRead(fs) <==>
            DigitRun(t) == 0 || (fs[|fs| - 1] == 0 && Value(t[..DigitRun(t)]) == 0)
  {
    hide DigitRun;
    hide Value;
    hide ReadFields;
    hide EncodeFields;
    hide AllRead;
    if |fs| == 1 {
      FollowedByDigitsIff(fs[0], t);
      ReadLast(fs[0], t);
      assert fs == [fs[0]];
    } else {
      ReadEncodedIff(fs[1..], t);
      ReadFirst(fs, t);
      SamePrefix([Some(fs[0])], ReadFields(EncodeFields(fs[1..]) + t, |fs| - 1), AllRead(fs[1..]));
    }
  }

  /** What is left of the old content behind a new record, as far as reading sees it. */
  function StaleTail(content: string, r: Record): string
    requires |Encode(r)| <= RECORD_CAPACITY
  {
    var n := |Encode(r)|;
    if |content| <= n then "" else content[n..if |content| <= 30 then |content| else 30]
  }

  /** Reading after writing gives the record back exactly when no digit of the old content follows the
      new record, or only zeros after a 3G flag of zero: the write does not cut the file. */
  lemma ReadAfterWriteIff(content: string, r: Record)
    requires |Encode(r)| <= RECORD_CAPACITY
    ensures var t := StaleTail(content, r);
            ReadFields(Seen(Overwritten(content, Encode(r))), 5) == AllRead(FieldsOf(r)) <==>
            DigitRun(t) == 0 || (r.wcdma == 0 && Value(t[..DigitRun(t)]) == 0)
  {
    hide EncodeFields;
    hide ReadFields;
    var seen, t := Seen(Overwritten(content, Encode(r))), StaleTail(content, r);
    assert seen == Encode(r) + t;
    ReadEncodedIff(FieldsOf(r), t);
  }

  /** In particular, from an empty file every record that fits comes back, negative numbers included. */
  lemma RoundTrip(r: Record)
    requires |Encode(r)| <= RECORD_CAPACITY
    ensures Overwritten("", Encode(r)) != ""
    ensures ReadFields(Seen(Overwritten("", Encode(r))), 5) ==
            [Some(r.reason), Some(r.bearer), Some(r.drive), Some(r.size), Some(r.wcdma)]
  {
    ReadAfterWriteIff("", r);
    EncodedIsNotEmpty(FieldsOf(r));
    assert StaleTail("", r) == "";
  }
}
