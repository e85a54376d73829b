/** Window identifiers `ai-<n>` as `openAIWindow` renders them from the
    window counter with a template literal, together with a parser used
    only as a specification device: parsing undoes rendering, so two
    different counter values never render to the same identifier. */
module WindowIds {
  import opened Wrappers

  /** The constant tag in front of every AI window identifier. */
  const Prefix: string := "ai-"

  predicate IsDigit(c: char) {
    '0' <= c <= '9'
  }

  function DigitChar(d: nat): (c: char)
    requires d < 10
    ensures IsDigit(c)
  {
    "0123456789"[d]
  }

  function DigitValue(c: char): (d: nat)
    requires IsDigit(c)
    ensures d < 10
  {
    c as int - '0' as int
  }

  /** Decimal rendering of a natural number, most significant digit first,
      as JavaScript renders a non-negative integer-valued number. */
  function Decimal(n: nat): (s: string)
    ensures |s| >= 1
    ensures forall i | 0 <= i < |s| :: IsDigit(s[i])
    decreases n
  {
    if n < 10 then [DigitChar(n)] else Decimal(n / 10) + [DigitChar(n % 10)]
  }

  /** Reads a non-empty string of decimal digits (leading zeros allowed). */
  function ParseDecimal(s: string): (r: Option<nat>)
    ensures r.Some? <==> |s| >= 1 && forall i | 0 <= i < |s| :: IsDigit(s[i])
    decreases |s|
  {
    if |s| == 0 || !IsDigit(s[|s| - 1]) then None
    else if |s| == 1 then Some(DigitValue(s[0]))
    else
      match ParseDecimal(s[..|s| - 1])
      case None => None
      case Some(m) => Some(10 * m + DigitValue(s[|s| - 1]))
  }

  lemma DigitRoundTrip(d: nat)
    requires d < 10
    ensures DigitValue(DigitChar(d)) == d
  {
  }

  /** Reading back a rendered number yields the number. */
  lemma {:induction false} DecimalRoundTrip(n: nat)
    ensures ParseDecimal(Decimal(n)) == Some(n)
    decreases n
  {
    DigitRoundTrip(n % 10);
    if n >= 10 {
      var s := Decimal(n);
      var p := Decimal(n / 10);
      assert s == p + [DigitChar(n % 10)];
      assert s[..|s| - 1] == p;
      DecimalRoundTrip(n / 10);
    }
  }

  /** The identifier `openAIWindow` hands out for counter value `n`. */
  function WindowId(n: nat): (id: string)
    ensures |id| > |Prefix| && id[..|Prefix|] == Prefix
    ensures ParseWindowId(id) == Some(n)
  {
    var id := Prefix + Decimal(n);
    assert id[|Prefix|..] == Decimal(n);
    DecimalRoundTrip(n);
    id
  }

  /** The counter value an identifier was rendered from, if it has the
      `ai-<digits>` shape. */
  function ParseWindowId(id: string): (r: Option<nat>)
    ensures r.Some? ==> |id| > |Prefix| && id[..|Prefix|] == Prefix
  {
    if |id| >= |Prefix| && id[..|Prefix|] == Prefix then ParseDecimal(id[|Prefix|..])
    else None
  }

  /** Distinct counter values give distinct identifiers. */
  lemma WindowIdInjective(a: nat, b: nat)
    ensures WindowId(a) == WindowId(b) <==> a == b
  {
    if WindowId(a) == WindowId(b) {
      assert Some(a) == ParseWindowId(WindowId(a)) == ParseWindowId(WindowId(b)) == Some(b);
    }
  }
}
