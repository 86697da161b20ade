/**
 * Lock keys for a (warehouse, item) pair.
 *
 * `GenerateLockKey` is the key as the handler builds it, with `%c`: each id is
 * reduced to one character, its low byte, so pairs whose ids agree modulo 256
 * share a key. `LockKey` is the corrected key: both ids in decimal, joined by
 * '-', which `ParseLockKey` reads back. The saga model records each lock by
 * the `Key` it is built from; the handler's own lock name is `GenerateLockKey`
 * of that key, so two keys whose ids agree modulo 256 are one lock there.
 */
module LockKeys {
  import opened Wrappers
  import opened Domain

  /** What a lock key is built from: the warehouse id and the item id of a row. */
  datatype Key = Key(warehouseId: int, itemId: int)

  function KeyOf(row: ItemWarehouse): Key
  {
    Key(row.id, row.itemId)
  }

  /** The character `%c` prints for an integer: its low byte. */
  function ByteChar(n: int): (c: char)
    ensures c as int == n % 256
  {
    (n % 256) as char
  }

  /** The key as written: one character per id around a '-'. */
  function GenerateLockKey(row: ItemWarehouse): (key: string)
    ensures |key| == 3 && key[1] == '-'
  {
    [ByteChar(row.id), '-', ByteChar(row.itemId)]
  }

  /** Two rows get the same key exactly when both ids agree modulo 256. */
  lemma GenerateLockKeyEqualIff(a: ItemWarehouse, b: ItemWarehouse)
    ensures GenerateLockKey(a) == GenerateLockKey(b)
        <==> a.id % 256 == b.id % 256 && a.itemId % 256 == b.itemId % 256
  {
    var ka, kb := GenerateLockKey(a), GenerateLockKey(b);
    if ka == kb {
      assert ka[0] == kb[0] && ka[2] == kb[2];
    }
  }

  /** The key as written depends on a row only through its (warehouse id, item id) pair. */
  lemma GenerateLockKeyOfKey(a: ItemWarehouse, b: ItemWarehouse)
    requires KeyOf(a) == KeyOf(b)
    ensures GenerateLockKey(a) == GenerateLockKey(b)
  {
  }

  /** Warehouses 1 and 257 holding item 1 contend for one lock. */
  lemma GenerateLockKeyCollision()
    ensures GenerateLockKey(ItemWarehouse(1, 1, 5)) == GenerateLockKey(ItemWarehouse(257, 1, 5))
  {
    GenerateLockKeyEqualIff(ItemWarehouse(1, 1, 5), ItemWarehouse(257, 1, 5));
  }

  // ----- decimal keys -----

  predicate IsDigit(c: char) { '0' <= c <= '9' }

  function DigitChar(d: nat): (c: char)
    requires d < 10
    ensures IsDigit(c)
  {
    ('0' as int + d) as char
  }

  /** The decimal digits of `n`, without leading zeros. */
  function Digits(n: nat): (s: string)
    ensures |s| > 0
    ensures forall i :: 0 <= i < |s| ==> IsDigit(s[i])
  {
    if n < 10 then [DigitChar(n)] else Digits(n / 10) + [DigitChar(n % 10)]
  }

  /** The value of a string of digits. */
  function DigitsValue(s: string): nat
    requires forall i :: 0 <= i < |s| ==> IsDigit(s[i])
  {
    if s == [] then 0
    else
      var last := s[|s| - 1];
      assert IsDigit(last);
      DigitsValue(s[..|s| - 1]) * 10 + (last as int - '0' as int)
  }

  /** `%d`: an optional minus sign, then the digits of the magnitude. */
  function Decimal(x: int): string
  {
    if x < 0 then "-" + Digits(-x) else Digits(x)
  }

  /** The corrected key: `%d-%d`. */
  function LockKey(row: ItemWarehouse): string
  {
    Decimal(row.id) + "-" + Decimal(row.itemId)
  }

  /** The length of the run of digits that starts `s`. */
  function SpanDigits(s: string): (n: nat)
    ensures n <= |s|
    ensures forall i :: 0 <= i < n ==> IsDigit(s[i])
  {
    if s == [] || !IsDigit(s[0]) then 0 else 1 + SpanDigits(s[1..])
  }

  /** Reads an optional '-' and a run of digits; gives the value and how many characters it used. */
  function ReadInt(s: string): (r: (int, nat))
    ensures r.1 <= |s|
  {
    if |s| > 0 && s[0] == '-' then
      var n := SpanDigits(s[1..]);
      (-(DigitsValue(s[1..1 + n]) as int), 1 + n)
    else
      var n := SpanDigits(s);
      (DigitsValue(s[..n]), n)
  }

  /** The (warehouse id, item id) pair a decimal key stands for. */
  function ParseLockKey(key: string): Option<Key>
  {
    var (w, n) := ReadInt(key);
    if n < |key| && key[n] == '-' then
      var (i, m) := ReadInt(key[n + 1..]);
      if n + 1 + m == |key| then Some(Key(w, i)) else None
    else None
  }

  lemma {:induction false} DigitsValueOfDigits(n: nat)
    ensures DigitsValue(Digits(n)) == n
  {
    if n >= 10 {
      var s := Digits(n);
      DigitsValueOfDigits(n / 10);
      assert s[..|s| - 1] == Digits(n / 10);
    }
  }

  lemma {:induction false} SpanDigitsAppend(ds: string, rest: string)
    requires forall i :: 0 <= i < |ds| ==> IsDigit(ds[i])
    ensures SpanDigits(ds + rest) == |ds| + SpanDigits(rest)
  {
    if ds != [] {
      assert (ds + rest)[1..] == ds[1..] + rest;
      SpanDigitsAppend(ds[1..], rest);
    } else {
      assert ds + rest == rest;
    }
  }

  lemma ReadDigits(n: nat, rest: string)
    requires rest == [] || rest[0] == '-'
    ensures ReadInt(Digits(n) + rest) == (n, |Digits(n)|)
  {
    var ds := Digits(n);
    var s := ds + rest;
    assert s[0] == ds[0];
    assert SpanDigits(rest) == 0;
    SpanDigitsAppend(ds, rest);
    assert s[..|ds|] == ds;
    DigitsValueOfDigits(n);
  }

  lemma ReadNegative(n: nat, rest: string)
    requires n > 0
    requires rest == [] || rest[0] == '-'
    ensures ReadInt("-" + Digits(n) + rest) == (-(n as int), 1 + |Digits(n)|)
  {
    var ds := Digits(n);
    var s := "-" + ds + rest;
    assert s[0] == '-';
    assert s[1..] == ds + rest;
    assert SpanDigits(rest) == 0;
    SpanDigitsAppend(ds, rest);
    assert s[1..1 + |ds|] == ds;
    DigitsValueOfDigits(n);
  }

  /** Reading a decimal back stops right before a '-' or the end of the key. */
  lemma ReadIntDecimal(x: int, rest: string)
    requires rest == [] || rest[0] == '-'
    ensures ReadInt(Decimal(x) + rest) == (x, |Decimal(x)|)
  {
    if x < 0 {
      ReadNegative(-x, rest);
    } else {
      ReadDigits(x, rest);
    }
  }

  /** The decimal key names its pair: parsing gives back both ids. */
  lemma LockKeyRoundTrip(row: ItemWarehouse)
    ensures ParseLockKey(LockKey(row)) == Some(KeyOf(row))
  {
    var key := LockKey(row);
    var dw, di := Decimal(row.id), Decimal(row.itemId);
    assert key == dw + ("-" + di);
    ReadIntDecimal(row.id, "-" + di);
    assert key[|dw|] == '-';
    assert key[|dw| + 1..] == di + [];
    ReadIntDecimal(row.itemId, []);
  }

  /** Distinct (warehouse, item) pairs never share a decimal key. */
  lemma LockKeyInjective(a: ItemWarehouse, b: ItemWarehouse)
    ensures LockKey(a) == LockKey(b) <==> KeyOf(a) == KeyOf(b)
  {
    LockKeyRoundTrip(a);
    LockKeyRoundTrip(b);
  }
}
