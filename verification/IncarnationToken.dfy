/**
 The boot-scoped process incarnation token: how it is printed from a PID, a boot
 id and a start tick count, and how the recogniser accepts it.
 */
module IncarnationToken {
  import opened Wrappers
  import opened Text

  const MAX_IDENTIFIER_BYTES := 512
  const U32_MAX: nat := 0xFFFF_FFFF
  const U64_MAX: nat := 0xFFFF_FFFF_FFFF_FFFF

  datatype Identity = Identity(pid: nat, boot: string, ticks: nat)

  predicate Valid(id: Identity) {
    0 < id.pid <= U32_MAX && CanonicalBootId(id.boot) && id.ticks <= U64_MAX
  }

  predicate IsLowerHex(c: char) { IsDigit(c) || 'a' <= c <= 'f' }

  predicate CanonicalBootId(s: string) {
    && |s| == 36
    && (forall i | 0 <= i < |s| :: if i in {8, 13, 18, 23} then s[i] == '-' else IsLowerHex(s[i]))
    && (exists i | 0 <= i < |s| :: '1' <= s[i] <= '9' || 'a' <= s[i] <= 'f')
  }

  /** Unsigned 64-bit parsing: an optional plus sign, then at least one digit; leading zeros pass. */
  function ParseU64(s: string): Option<nat> {
    var body := if s != [] && s[0] == '+' then s[1..] else s;
    if body == [] || !Digits(body) || DecimalValue(body) > U64_MAX then None
    else Some(DecimalValue(body))
  }

  function Print(id: Identity): string {
    "linux-v2" + ":" + (Decimal(id.pid) + ":" + (id.boot + ":" + Decimal(id.ticks)))
  }

  predicate Ascii(s: string) { forall i | 0 <= i < |s| :: s[i] as int < 128 }

  predicate Supported(pid: nat, token: string) {
    && pid != 0 && |token| <= MAX_IDENTIFIER_BYTES && Ascii(token)
    && var parts := Split(token, ':');
    && |parts| == 4
    && parts[0] == "linux-v2"
    && parts[1] == Decimal(pid)
    && CanonicalBootId(parts[2])
    && var ticks := ParseU64(parts[3]);
    && ticks.Some? && Decimal(ticks.value) == parts[3]
  }

  lemma {:induction false} DecimalRoundTrip(n: nat)
    ensures Decimal(n) != [] && Digits(Decimal(n)) && DecimalValue(Decimal(n)) == n
  {
    if n >= 10 {
      DecimalRoundTrip(n / 10);
      var s := Decimal(n);
      assert s[..|s| - 1] == Decimal(n / 10);
    }
  }

  lemma {:induction false} DecimalLength(n: nat, digits: nat, bound: nat)
    requires bound == Power10(digits) && n < bound && digits >= 1
    ensures |Decimal(n)| <= digits
  {
    if n >= 10 {
      DecimalLength(n / 10, digits - 1, bound / 10);
    }
  }

  function Power10(e: nat): nat { if e == 0 then 1 else 10 * Power10(e - 1) }

  /** The split of a printed token is its four fields. */
  lemma {:induction false} PrintedFields(id: Identity)
    requires Valid(id)
    ensures Split(Print(id), ':') == ["linux-v2", Decimal(id.pid), id.boot, Decimal(id.ticks)]
  {
    DecimalRoundTrip(id.pid);
    DecimalRoundTrip(id.ticks);
    SplitPlain(Decimal(id.ticks), ':');
    SplitFirst(id.boot, ':', Decimal(id.ticks));
    SplitFirst(Decimal(id.pid), ':', id.boot + ":" + Decimal(id.ticks));
    SplitFirst("linux-v2", ':', Decimal(id.pid) + ":" + (id.boot + ":" + Decimal(id.ticks)));
  }

  /** Every valid identity prints to a token the recogniser accepts for its PID. */
  lemma {:induction false} PrintedIsSupported(id: Identity)
    requires Valid(id)
    ensures Supported(id.pid, Print(id))
  {
    PrintedFields(id);
    DecimalRoundTrip(id.pid);
    DecimalRoundTrip(id.ticks);
    DecimalLength(id.pid, 10, 10_000_000_000);
    DecimalLength(id.ticks, 20, 100_000_000_000_000_000_000);
    var body := Decimal(id.ticks);
    assert body[0] != '+';
  }

  lemma {:induction false} JoinOfFour(a: string, b: string, c: string, d: string)
    ensures Join([a, b, c, d], ':') == a + ":" + (b + ":" + (c + ":" + d))
  {
    calc {
      Join([a, b, c, d], ':');
      { assert [a, b, c, d][1..] == [b, c, d]; }
      a + ":" + Join([b, c, d], ':');
      { assert [b, c, d][1..] == [c, d]; }
      a + ":" + (b + ":" + Join([c, d], ':'));
      { assert [c, d][1..] == [d]; }
      a + ":" + (b + ":" + (c + ":" + d));
    }
  }

  /** Every token accepted for a PID is the printed form of exactly one identity. */
  lemma {:induction false} SupportedIsPrinted(pid: nat, token: string) returns (id: Identity)
    requires pid <= U32_MAX && Supported(pid, token)
    ensures Valid(id) && id.pid == pid && token == Print(id)
    ensures forall other: Identity | Valid(other) && Print(other) == token :: other == id
  {
    var parts := Split(token, ':');
    id := Identity(pid, parts[2], ParseU64(parts[3]).value);
    JoinOfSplit(token, ':');
    assert parts == ["linux-v2", Decimal(pid), id.boot, Decimal(id.ticks)];
    JoinOfFour("linux-v2", Decimal(pid), id.boot, Decimal(id.ticks));
    forall other: Identity | Valid(other) && Print(other) == token
      ensures other == id
    {
      PrintInjective(other, id);
    }
  }

  /** Token equality is identity equality. */
  lemma {:induction false} PrintInjective(a: Identity, b: Identity)
    requires Valid(a) && Valid(b) && Print(a) == Print(b)
    ensures a == b
  {
    PrintedFields(a);
    PrintedFields(b);
    DecimalRoundTrip(a.pid);
    DecimalRoundTrip(b.pid);
    DecimalRoundTrip(a.ticks);
    DecimalRoundTrip(b.ticks);
    var fields := ["linux-v2", Decimal(a.pid), a.boot, Decimal(a.ticks)];
    assert fields == ["linux-v2", Decimal(b.pid), b.boot, Decimal(b.ticks)];
    assert fields[1] == Decimal(b.pid) && fields[2] == b.boot && fields[3] == Decimal(b.ticks);
  }
}
