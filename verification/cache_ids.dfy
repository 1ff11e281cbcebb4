/** The generator of cache IDs (src/message_cache.cc). */
module CacheIds {
  import opened Common

  // of a signed 64-bit long long
  const LLONG_MAX: int := 0x7FFF_FFFF_FFFF_FFFF

  // LLONG_MAX >> 1, the upper end of the random range
  const SEED_MAX: int := 0x3FFF_FFFF_FFFF_FFFF

  // 2^62
  const SAFE_COUNT: int := 0x4000_0000_0000_0000

  function Digit(d: nat): (c: char)
    requires d < 10
    ensures '0' <= c <= '9' && DigitValue(c) == d
  {
    ('0' as int + d) as char
  }

  function DigitValue(c: char): int {
    c as int - '0' as int
  }

  /** std::to_string of a non-negative number. */
  function Decimal(n: nat): (s: string)
    ensures s != ""
    ensures NumberOf(s) == n
  {
    if n < 10 then
      assert NumberOf([Digit(n)]) == n by { assert [Digit(n)][..0] == ""; }
      [Digit(n)]
    else
      var s := Decimal(n / 10) + [Digit(n % 10)];
      assert s[..|s| - 1] == Decimal(n / 10);
      s
  }

  /** The number a decimal string denotes; `Decimal` is its right inverse, hence injective. */
  function NumberOf(s: string): int {
    if s == "" then 0 else 10 * NumberOf(s[..|s| - 1]) + DigitValue(s[|s| - 1])
  }

  /** The ID made of the random prefix and one value of the counter. */
  function Id(range: nat, n: nat): string {
    Decimal(range) + Decimal(n)
  }

  lemma IdInjective(range: nat, m: nat, n: nat)
    requires Id(range, m) == Id(range, n)
    ensures m == n
  {
    assert Id(range, m)[|Decimal(range)|..] == Decimal(m);
    assert Id(range, n)[|Decimal(range)|..] == Decimal(n);
  }

  datatype Generator = Generator(range: nat, next: nat)

  /** What the constructor draws. */
  predicate Seeded(g: Generator) {
    1 <= g.range <= SEED_MAX && 1 <= g.next <= SEED_MAX
  }

  /** One ID, or None where `next_id++` would overflow. */
  function Generate(g: Generator): Option<(string, Generator)> {
    if g.next + 1 <= LLONG_MAX then Some((Id(g.range, g.next), g.(next := g.next + 1))) else None
  }

  /** The first `k` IDs in order, or None where one of them overflows the counter. */
  function Generated(g: Generator, k: nat): (r: Option<seq<string>>)
    ensures r.Some? ==> |r.value| == k
    decreases k
  {
    if k == 0 then Some([])
    else
      var first := Generate(g);
      if first.None? then None
      else
        var rest := Generated(first.value.1, k - 1);
        if rest.None? then None else Some([first.value.0] + rest.value)
  }

  /** How many IDs the counter lasts for. */
  lemma {:induction false} GeneratedExactly(g: Generator, k: nat)
    requires g.next <= LLONG_MAX
    ensures Generated(g, k).Some? <==> g.next + k <= LLONG_MAX
    ensures Generated(g, k).Some? ==>
      forall i :: 0 <= i < k ==> Generated(g, k).value[i] == Decimal(g.range) + Decimal(g.next + i)
    decreases k
  {
    hide Decimal;
    if k > 0 && g.next + 1 <= LLONG_MAX { GeneratedExactly(g.(next := g.next + 1), k - 1); }
  }

  /** From any seed the first 2^62 IDs come without overflow and are pairwise distinct; from the
      largest seed no more than those do. */
  lemma FreshIds(g: Generator, k: nat)
    requires Seeded(g)
    ensures k <= SAFE_COUNT ==>
      && Generated(g, k).Some?
      && forall i, j :: 0 <= i < j < k ==> Generated(g, k).value[i] != Generated(g, k).value[j]
    ensures k > SAFE_COUNT && g.next == SEED_MAX ==> Generated(g, k).None?
  {
    GeneratedExactly(g, k);
    if k <= SAFE_COUNT {
      var ids := Generated(g, k).value;
      forall i, j | 0 <= i < j < k ensures ids[i] != ids[j] {
        if ids[i] == ids[j] { IdInjective(g.range, g.next + i, g.next + j); }
      }
    }
  }
}
