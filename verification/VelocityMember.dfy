/**
 * The sorted-set members are text, `<transaction id>:<amount>`, and the window total is read back
 * by parsing what follows the last colon.
 */
module VelocityMember {
  import opened Common

  /** `f"{n}"` for a natural number. */
  function Digits(n: nat): (s: string)
    ensures s != [] && forall c :: c in s ==> '0' <= c <= '9'
  {
    if n < 10 then [DigitChar(n)] else Digits(n / 10) + [DigitChar(n % 10)]
  }

  function DigitChar(d: nat): (c: char)
    requires d < 10
    ensures '0' <= c <= '9' && c as int - '0' as int == d
  {
    ('0' as int + d) as char
  }

  /** `int(s)` for unsigned decimal text; None is the ValueError. */
  function ParseInt(s: string): Option<nat> {
    if s == [] then None
    else
      var c := s[|s| - 1];
      if !('0' <= c <= '9') then None
      else
        var d := c as int - '0' as int;
        if |s| == 1 then Some(d)
        else
          match ParseInt(s[..|s| - 1])
          case None => None
          case Some(n) => Some(10 * n + d)
  }

  /** `s.split(":")[-1]` */
  function LastField(s: string): string {
    if s == [] || s[|s| - 1] == ':' then [] else LastField(s[..|s| - 1]) + [s[|s| - 1]]
  }

  function Member(id: string, amount: nat): string {
    id + ":" + Digits(amount)
  }

  /** None when some member does not end in a number. */
  function ExtractTotal(members: seq<string>): Option<nat> {
    if members == [] then Some(0)
    else
      match (ParseInt(LastField(members[0])), ExtractTotal(members[1..]))
      case (Some(n), Some(rest)) => Some(n + rest)
      case _ => None
  }

  lemma {:induction false} ParseDigits(n: nat)
    ensures ParseInt(Digits(n)) == Some(n)
  {
    if n >= 10 {
      ParseDigits(n / 10);
      var s := Digits(n);
      assert s[..|s| - 1] == Digits(n / 10) && s[|s| - 1] == DigitChar(n % 10);
    }
  }

  lemma {:induction false} LastFieldAfterColon(prefix: string, field: string)
    requires ':' !in field
    ensures LastField(prefix + ":" + field) == field
  {
    var s := prefix + ":" + field;
    if field == [] {
      assert s[|s| - 1] == ':';
    } else {
      var init := field[..|field| - 1];
      assert s[..|s| - 1] == prefix + ":" + init;
      LastFieldAfterColon(prefix, init);
      assert field == init + [field[|field| - 1]];
    }
  }

  /** Whatever the id text, colons included, the amount is read back exactly. */
  lemma MemberRoundTrip(id: string, amount: nat)
    ensures ParseInt(LastField(Member(id, amount))) == Some(amount)
  {
    LastFieldAfterColon(id, Digits(amount));
    ParseDigits(amount);
  }

  /** The member is the id, a colon, and the amount in decimal digits. */
  lemma MemberShape(id: string, amount: nat)
    ensures |Member(id, amount)| > |id| + 1 && Member(id, amount)[..|id|] == id && Member(id, amount)[|id|] == ':'
    ensures forall i :: |id| < i < |Member(id, amount)| ==> '0' <= Member(id, amount)[i] <= '9'
  {
    var m, d := Member(id, amount), Digits(amount);
    assert m == id + [':'] + d;
    forall i | |id| < i < |m| ensures '0' <= m[i] <= '9' {
      assert m[i] == d[i - |id| - 1] && d[i - |id| - 1] in d;
    }
  }

  /** Digits are decimal: 1,250 cents are written as they are read. */
  lemma DigitsAreDecimal()
    ensures Digits(1250) == "1250"
  {
    var one, two, five, zero := DigitChar(1), DigitChar(2), DigitChar(5), DigitChar(0);
    assert one == '1' && two == '2' && five == '5' && zero == '0';
    assert Digits(1) == ['1'];
    assert Digits(12) == ['1'] + ['2'];
    assert Digits(125) == ['1'] + ['2'] + ['5'];
    assert Digits(1250) == ['1'] + ['2'] + ['5'] + ['0'];
  }

  lemma MemberInjective(id: string, amount: nat, id': string, amount': nat)
    requires Member(id, amount) == Member(id', amount')
    ensures id == id' && amount == amount'
  {
    MemberRoundTrip(id, amount);
    MemberRoundTrip(id', amount');
    var m := Member(id, amount);
    assert m[..|id|] == id;
    assert Member(id', amount')[..|id'|] == id';
  }

  lemma DigitsInjective(n: nat, n': nat)
    requires Digits(n) == Digits(n')
    ensures n == n'
  {
    ParseDigits(n);
    ParseDigits(n');
  }

  function Members(ids: seq<string>, amounts: seq<nat>): seq<string>
    requires |ids| == |amounts|
  {
    if ids == [] then [] else [Member(ids[0], amounts[0])] + Members(ids[1..], amounts[1..])
  }

  function Sum(amounts: seq<nat>): nat {
    if amounts == [] then 0 else amounts[0] + Sum(amounts[1..])
  }

  /** Printing a list of members and extracting their total gives the sum of their amounts. */
  lemma {:induction false} ExtractTotalIsSum(ids: seq<string>, amounts: seq<nat>)
    requires |ids| == |amounts|
    ensures ExtractTotal(Members(ids, amounts)) == Some(Sum(amounts))
  {
    if ids != [] {
      MemberRoundTrip(ids[0], amounts[0]);
      ExtractTotalIsSum(ids[1..], amounts[1..]);
    }
  }
}
