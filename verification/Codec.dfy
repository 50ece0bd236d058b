/** The string forms kept in Redis: members "<jobID>|<url>" and dead entries "<reason>|<until>". */
module Codec {
  import opened Keyspace

  function Digit(d: nat): char
    requires d < 10
  {
    '0' + d as char
  }

  predicate IsDigit(c: char) {
    '0' <= c <= '9'
  }

  predicate AllDigits(s: string) {
    forall c :: c in s ==> IsDigit(c)
  }

  /** Decimal form of a number, as INCR and FormatInt give it. */
  function Digits(n: nat): (s: string)
    ensures s != "" && AllDigits(s)
  {
    if n < 10 then [Digit(n)] else Digits(n / 10) + [Digit(n % 10)]
  }

  function ValueOf(s: string): nat
    requires AllDigits(s)
  {
    if s == "" then 0
    else
      assert IsDigit(s[|s| - 1]);
      ValueOf(s[..|s| - 1]) * 10 + (s[|s| - 1] as int - '0' as int)
  }

  const INT64_MAX: int := 0x7fff_ffff_ffff_ffff

  /** strconv.ParseInt(s, 10, 64). */
  function ParseInt(s: string): Option<int> {
    var signed := s != "" && (s[0] == '-' || s[0] == '+');
    var body := if signed then s[1..] else s;
    if body == "" || !AllDigits(body) then None
    else
      var v: int := if signed && s[0] == '-' then 0 - ValueOf(body) else ValueOf(body);
      if -INT64_MAX - 1 <= v <= INT64_MAX then Some(v) else None
  }

  /** Position of the first '|', or the length if there is none. */
  function Bar(s: string): (i: nat)
    ensures i <= |s| && (i < |s| ==> s[i] == '|') && forall k :: 0 <= k < i ==> s[k] != '|'
  {
    if s == "" || s[0] == '|' then 0 else 1 + Bar(s[1..])
  }

  function EncodeMember(j: Job): string {
    Digits(j.id) + "|" + j.url
  }

  /** splitMember. */
  function SplitMember(member: string): (string, string) {
    var i := Bar(member);
    if i == |member| then (member, "") else (member[..i], member[i + 1..])
  }

  /** FormatInt. */
  function FormatInt(n: int): (s: string)
    ensures s != "" && '|' !in s
  {
    if n < 0 then "-" + Digits(-n) else Digits(n)
  }

  function EncodeDead(d: Dead): string {
    d.reason + "|" + FormatInt(d.until)
  }

  /** How a checkpoint reads a dead entry: Cut at the first '|', then ParseInt. */
  function DecodeDead(s: string): Option<Dead> {
    var i := Bar(s);
    if i == |s| then None
    else
      match ParseInt(s[i + 1..])
      case None => None
      case Some(until) => Some(Dead(s[..i], until))
  }

  lemma BarAt(a: string, b: string)
    requires '|' !in a
    ensures Bar(a + "|" + b) == |a| && (a + "|" + b)[..|a|] == a && (a + "|" + b)[|a| + 1..] == b
  {
    var s := a + "|" + b;
    assert s[|a|] == '|';
    assert forall k :: 0 <= k < |a| ==> s[k] == a[k] && a[k] in a;
  }

  /** Splitting is exact for every URL, even one that contains '|', because the ID is all digits. */
  lemma SplitExact(j: Job)
    ensures SplitMember(EncodeMember(j)) == (Digits(j.id), j.url)
  {
    assert '|' !in Digits(j.id);
    BarAt(Digits(j.id), j.url);
  }

  lemma {:induction false} ValueOfDigits(n: nat)
    ensures ValueOf(Digits(n)) == n
  {
    if n < 10 {
      assert Digits(n)[..0] == "";
    } else {
      ValueOfDigits(n / 10);
      assert Digits(n)[..|Digits(n)| - 1] == Digits(n / 10);
    }
  }

  /** Decimal notation: each digit counts ten times the one after it, and no number but 0 begins with a zero. */
  lemma {:induction false} DigitsLaw(n: nat)
    ensures n < 10 ==> Digits(n) == ["0123456789"[n]]
    ensures n >= 10 ==> Digits(n) == Digits(n / 10) + ["0123456789"[n % 10]] && Digits(n)[0] != '0'
  {
    if n >= 10 {
      DigitsLaw(n / 10);
    }
  }

  /** Two jobs are the same member string only if they are the same job. */
  lemma MemberInjective(i: Job, j: Job)
    requires EncodeMember(i) == EncodeMember(j)
    ensures i == j
  {
    SplitExact(i);
    SplitExact(j);
    ValueOfDigits(i.id);
    ValueOfDigits(j.id);
  }

  lemma ParseFormatted(n: int)
    ensures ParseInt(FormatInt(n)) == if -INT64_MAX - 1 <= n <= INT64_MAX then Some(n) else None
  {
    if n < 0 {
      ValueOfDigits(-n);
      assert ("-" + Digits(-n))[1..] == Digits(-n);
    } else {
      ValueOfDigits(n);
      assert IsDigit(Digits(n)[0]);
    }
  }

  lemma ParseRejectsBar(s: string)
    requires '|' in s
    ensures ParseInt(s) == None
  {
    if s[0] == '-' || s[0] == '+' {
      assert s == [s[0]] + s[1..];
      assert '|' in s[1..];
    }
  }

  /** A dead entry reads back as written exactly when its reason has no '|' and its expiry fits in 64 bits; any
      other is refused, never misread. */
  lemma DeadRoundTrip(d: Dead)
    ensures DecodeDead(EncodeDead(d))
         == if '|' !in d.reason && -INT64_MAX - 1 <= d.until <= INT64_MAX then Some(d) else None
  {
    var s := EncodeDead(d);
    if '|' !in d.reason {
      BarAt(d.reason, FormatInt(d.until));
      ParseFormatted(d.until);
    } else {
      BarInside(d.reason, "|" + FormatInt(d.until));
      assert s == d.reason + ("|" + FormatInt(d.until));
      var i := Bar(s);
      assert s[i + 1..][|d.reason| - i - 1] == '|';
      ParseRejectsBar(s[i + 1..]);
    }
  }

  lemma BarInside(a: string, b: string)
    requires '|' in a
    ensures Bar(a + b) < |a|
  {
    var k :| 0 <= k < |a| && a[k] == '|';
    assert (a + b)[k] == '|';
  }
}
