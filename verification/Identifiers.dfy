/** Meter-event identifiers: `ovg:<org>:<month>:<unit>` names one unit of one organization and month. */
module Identifiers {

  datatype Key = Key(org: string, period: string)

  /** Organization ids are UUIDs and periods are `YYYY-MM`; neither holds a colon. */
  predicate Plain(k: Key) { ':' !in k.org && ':' !in k.period }

  const DIGITS := "0123456789"

  function Decimal(n: nat): (s: string)
    ensures |s| > 0 && ':' !in s
  {
    if n < 10 then [DIGITS[n]] else Decimal(n / 10) + [DIGITS[n % 10]]
  }

  function Identifier(k: Key, unit: nat): string {
    "ovg:" + (k.org + ":" + (k.period + ":" + Decimal(unit)))
  }

  lemma {:induction false} DecimalInjective(m: nat, n: nat)
    requires Decimal(m) == Decimal(n)
    ensures m == n
  {
    var s, t := Decimal(m), Decimal(n);
    assert s[|s| - 1] == DIGITS[m % 10] && t[|t| - 1] == DIGITS[n % 10];
    if m >= 10 && n >= 10 {
      assert s[..|s| - 1] == Decimal(m / 10) && t[..|t| - 1] == Decimal(n / 10);
      DecimalInjective(m / 10, n / 10);
    }
  }

  lemma FirstColon(a: string, b: string, a': string, b': string)
    requires |a| < |a'| && a + ":" + b == a' + ":" + b'
    ensures ':' in a'
  {
    assert (a + ":" + b)[|a|] == a'[|a|];
  }

  lemma ColonSplits(a: string, b: string, a': string, b': string)
    requires ':' !in a && ':' !in a' && a + ":" + b == a' + ":" + b'
    ensures a == a' && b == b'
  {
    var s := a + ":" + b;
    if |a| < |a'| { FirstColon(a, b, a', b'); }
    if |a'| < |a| { FirstColon(a', b', a, b); }
    assert a == s[..|a|] == a' && b == s[|a| + 1..] == b';
  }

  /** The printed form: unit 12 of an organization's June. */
  lemma IdentifierPrints(org: string)
    ensures Identifier(Key(org, "2026-06"), 12) == "ovg:" + org + ":2026-06:12"
  {
    assert Decimal(1) == "1";
    assert Decimal(12) == "12";
  }

  /** No two units share an identifier, whatever their organization and month. */
  lemma IdentifierInjective(k: Key, u: nat, k': Key, u': nat)
    requires Plain(k) && Plain(k') && Identifier(k, u) == Identifier(k', u')
    ensures k == k' && u == u'
  {
    var rest, rest' := k.period + ":" + Decimal(u), k'.period + ":" + Decimal(u');
    var body, body' := k.org + ":" + rest, k'.org + ":" + rest';
    assert body == Identifier(k, u)[4..] == Identifier(k', u')[4..] == body';
    ColonSplits(k.org, rest, k'.org, rest');
    ColonSplits(k.period, Decimal(u), k'.period, Decimal(u'));
    DecimalInjective(u, u');
  }
}
