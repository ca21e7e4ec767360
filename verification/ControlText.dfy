/** The text of a control sequence's parameters: decimal numbers between semicolons, an empty one standing
    for 1.
 */
module ControlText {
  import opened Basics

  const LEAST: int := -0x8000_0000_0000_0000
  const GREATEST: int := 0x7FFF_FFFF_FFFF_FFFF

  // ----- Fields -----------------------------------------------------------------------------------

  /** Fields with more text in the last. */
  function Extended(fields: seq<string>, more: string): (r: seq<string>)
    requires |fields| > 0
    ensures |r| == |fields|
  {
    fields[..|fields| - 1] + [fields[|fields| - 1] + more]
  }

  function Split(s: string): (r: seq<string>)
    ensures |r| > 0
  {
    if s == [] then [""]
    else if s[|s| - 1] == ';' then Split(s[..|s| - 1]) + [""]
    else Extended(Split(s[..|s| - 1]), [s[|s| - 1]])
  }

  function Join(fields: seq<string>): string
    requires |fields| > 0
  {
    if |fields| == 1 then fields[0] else Join(fields[..|fields| - 1]) + ";" + fields[|fields| - 1]
  }

  lemma SplitEnd(s: string, c: char)
    ensures Split(s + [c]) == if c == ';' then Split(s) + [""] else Extended(Split(s), [c])
  {
    assert (s + [c])[..|s|] == s;
  }

  lemma ExtendedTwice(fields: seq<string>, one: string, other: string)
    requires |fields| > 0
    ensures Extended(Extended(fields, one), other) == Extended(fields, one + other)
  {
    Associates(fields[|fields| - 1], one, other);
    assert Extended(fields, one)[..|fields| - 1] == fields[..|fields| - 1];
  }

  lemma ExtendedByNothing(fields: seq<string>)
    requires |fields| > 0
    ensures Extended(fields, "") == fields
  {
    assert fields[|fields| - 1] + "" == fields[|fields| - 1];
  }

  lemma {:induction false} SplitField(s: string, field: string)
    requires ';' !in field
    ensures Split(s + field) == Extended(Split(s), field)
  {
    if field == [] {
      ExtendedByNothing(Split(s));
      assert s + field == s;
    } else {
      var shorter, c := field[..|field| - 1], field[|field| - 1];
      SplitField(s, shorter);
      SplitEnd(s + shorter, c);
      ExtendedTwice(Split(s), shorter, [c]);
      assert field == shorter + [c];
      Associates(s, shorter, [c]);
    }
  }

  predicate Plain(fields: seq<string>) {
    forall i :: 0 <= i < |fields| ==> ';' !in fields[i]
  }

  lemma SplitOne(field: string)
    requires ';' !in field
    ensures Split(field) == [field]
  {
    SplitField("", field);
    assert "" + field == field;
    assert Extended([""], field) == ["" + field];
  }

  lemma ExtendedNew(front: seq<string>, last: string)
    ensures Extended(front + [""], last) == front + [last]
  {
    assert (front + [""])[..|front|] == front && "" + last == last;
  }

  /** Fields that are joined are found again. */
  lemma {:induction false} SplitJoin(fields: seq<string>)
    requires |fields| > 0 && Plain(fields)
    ensures Split(Join(fields)) == fields
  {
    var front, last := fields[..|fields| - 1], fields[|fields| - 1];
    assert fields == front + [last];
    if |fields| == 1 {
      SplitOne(last);
    } else {
      SplitJoin(front);
      SplitEnd(Join(front), ';');
      SplitField(Join(front) + ";", last);
      ExtendedNew(front, last);
    }
  }

  // ----- Numbers ----------------------------------------------------------------------------------

  predicate Digit(c: char) {
    '0' <= c <= '9'
  }

  /** The number that digits spell, if they are all digits and there is one. */
  function Digits(s: string): Option<nat> {
    if s == [] || !Digit(s[|s| - 1]) then None
    else
      var d := s[|s| - 1] as int - '0' as int;
      if |s| == 1 then Some(d)
      else
        var front := Digits(s[..|s| - 1]);
        if front.None? then None else Some(10 * front.value + d)
  }

  function InRange(n: int): Option<int> {
    if LEAST <= n <= GREATEST then Some(n) else None
  }

  /** An optional sign and digits, of a value that 64 bits hold. */
  function Atoi(s: string): Option<int> {
    if s == [] then None
    else
      var signed := s[0] == '-' || s[0] == '+';
      var digits := Digits(if signed then s[1..] else s);
      if digits.None? then None else InRange(if s[0] == '-' then 0 - digits.value else digits.value)
  }

  function Decimal(n: nat): (s: string)
    ensures |s| > 0 && forall i :: 0 <= i < |s| ==> Digit(s[i])
  {
    var last := [('0' as int + n % 10) as char];
    if n < 10 then last else Decimal(n / 10) + last
  }

  lemma {:induction false} DigitsDecimal(n: nat)
    ensures Digits(Decimal(n)) == Some(n)
  {
    var s := Decimal(n);
    if n >= 10 {
      DigitsDecimal(n / 10);
      assert s[..|s| - 1] == Decimal(n / 10);
    }
  }

  function Written(n: int): string {
    if n < 0 then "-" + Decimal(-n) else Decimal(n)
  }

  lemma AtoiWritten(n: int)
    requires LEAST <= n <= GREATEST
    ensures Atoi(Written(n)) == Some(n) && ';' !in Written(n) && Written(n) != ""
  {
    if n < 0 {
      DigitsDecimal(-n);
      assert Written(n)[1..] == Decimal(-n);
    } else {
      DigitsDecimal(n);
      assert Digit(Decimal(n)[0]);
    }
  }

  // ----- Parameters -------------------------------------------------------------------------------

  function Number(field: string): Option<int> {
    if field == "" then Some(1) else Atoi(field)
  }

  /** The numbers of the first `n` fields, unless one is none. */
  function Numbers(fields: seq<string>, n: nat): (r: Option<seq<int>>)
    requires n <= |fields|
    ensures r.Some? ==> |r.value| == n
  {
    if n == 0 then Some([])
    else
      var front, last := Numbers(fields, n - 1), Number(fields[n - 1]);
      if front.None? || last.None? then None else Some(front.value + [last.value])
  }

  function Parameters(text: string): (r: Option<seq<int>>)
    ensures r.Some? ==> |r.value| > 0
  {
    Numbers(Split(text), |Split(text)|)
  }

  lemma {:induction false} NoneFrom(fields: seq<string>, k: nat, n: nat)
    requires k <= n <= |fields| && Numbers(fields, k).None?
    ensures Numbers(fields, n).None?
  {
    if k < n {
      NoneFrom(fields, k, n - 1);
    }
  }

  /** The loop over the fields, up to the first that is no number. */
  method ParseParameters(text: string) returns (numbers: seq<int>, ok: bool)
    ensures if ok then Parameters(text) == Some(numbers) else Parameters(text).None?
  {
    var fields := Split(text);
    numbers, ok := [], true;
    for i := 0 to |fields|
      invariant Numbers(fields, i) == Some(numbers)
    {
      var number := Number(fields[i]);
      if number.None? {
        NoneFrom(fields, i + 1, |fields|);
        return [], false;
      }
      numbers := numbers + [number.value];
    }
  }

  function Spelled(numbers: seq<int>): (fields: seq<string>)
    ensures |fields| == |numbers|
  {
    if numbers == [] then [] else Spelled(numbers[..|numbers| - 1]) + [Written(numbers[|numbers| - 1])]
  }

  predicate Fit(numbers: seq<int>) {
    forall i :: 0 <= i < |numbers| ==> LEAST <= numbers[i] <= GREATEST
  }

  lemma {:induction false} SpelledIs(numbers: seq<int>, n: nat)
    requires Fit(numbers) && n <= |numbers|
    ensures Plain(Spelled(numbers)) && Numbers(Spelled(numbers), n) == Some(numbers[..n])
    decreases |numbers|, n
  {
    if |numbers| > 0 {
      var front, last := numbers[..|numbers| - 1], numbers[|numbers| - 1];
      AtoiWritten(last);
      SpelledIs(front, 0);
      if n == |numbers| {
        SpelledIs(front, |front|);
        SamePrefix(Spelled(front), Spelled(numbers), |front|);
        assert numbers[..n] == front[..|front|] + [last];
      } else {
        SpelledIs(front, n);
        SamePrefix(Spelled(front), Spelled(numbers), n);
        assert numbers[..n] == front[..n];
      }
    }
  }

  lemma {:induction false} SamePrefix(fields: seq<string>, longer: seq<string>, n: nat)
    requires fields <= longer && n <= |fields|
    ensures Numbers(longer, n) == Numbers(fields, n)
  {
    if n > 0 {
      SamePrefix(fields, longer, n - 1);
    }
  }

  /** Numbers spelled out between semicolons are read back. */
  lemma ParametersReadBack(numbers: seq<int>)
    requires |numbers| > 0 && Fit(numbers)
    ensures Parameters(Join(Spelled(numbers))) == Some(numbers)
  {
    SpelledIs(numbers, |numbers|);
    SplitJoin(Spelled(numbers));
    assert numbers[..|numbers|] == numbers;
  }
}
