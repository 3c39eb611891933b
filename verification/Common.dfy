/** What several parts of the system name: bytes, principals, inbox items, messages, decimal numbers. */
module Common {
  import opened Json

  type Byte = b: int | 0 <= b < 256

  const ROOT := "root"
  const ANONYMOUS := "anonymous"

  predicate Authenticated(principal: string) {
    principal != ANONYMOUS
  }

  datatype InboxItem = InboxItem(kind: string, text: string)

  // a message and who it came from; it waits in the queue while a turn is pending
  datatype Arrival = Arrival(principal: string, door: string, message: string, payload: string, hooks: seq<Json>)

  lemma Assoc<T>(a: seq<T>, b: seq<T>, c: seq<T>)
    ensures a + (b + c) == a + b + c
  {
  }

  // ---- decimal numbers ----

  function Digit(d: nat): char
    requires d < 10
  {
    ('0' as int + d) as char
  }

  function Decimal(n: nat): string {
    if n < 10 then [Digit(n)] else Decimal(n / 10) + [Digit(n % 10)]
  }

  // the number a text of digits is read as
  function Number(digits: string): int {
    if digits == "" then 0
    else 10 * Number(digits[..|digits| - 1]) + (digits[|digits| - 1] as int - '0' as int)
  }

  /** Digits only, no zero in front, and read as the number they were written for. */
  lemma {:induction false} DecimalReadsBack(n: nat)
    ensures Number(Decimal(n)) == n
    ensures forall i :: 0 <= i < |Decimal(n)| ==> '0' <= Decimal(n)[i] <= '9'
    ensures n > 0 ==> Decimal(n)[0] != '0'
  {
    if n >= 10 {
      DecimalReadsBack(n / 10);
      assert Decimal(n)[..|Decimal(n)| - 1] == Decimal(n / 10);
    }
  }

  lemma DecimalNonEmpty(n: nat)
    ensures |Decimal(n)| > 0
  {
  }

  lemma {:induction false} DecimalInjective(a: nat, b: nat)
    requires Decimal(a) == Decimal(b)
    ensures a == b
  {
    var da, db := Decimal(a), Decimal(b);
    assert Digit(a % 10) == da[|da| - 1] && Digit(b % 10) == db[|db| - 1];
    assert a % 10 == b % 10;
    DecimalNonEmpty(a / 10);
    DecimalNonEmpty(b / 10);
    if a >= 10 && b >= 10 {
      assert Decimal(a / 10) == da[..|da| - 1] && Decimal(b / 10) == db[..|db| - 1];
      DecimalInjective(a / 10, b / 10);
    }
  }
}
