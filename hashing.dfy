/**
 * The key callbacks the cache hands to the hash table library: the bucket
 * hash and red-black-tree value for name keys and for id keys, and the two
 * key comparisons.
 */
module IdMapHash {
  import opened IdMapTypes

  /** The sum of a byte string, as an unbounded integer. */
  function Sum(s: seq<Byte>): nat
  {
    if s == [] then 0 else Sum(s[..|s| - 1]) + s[|s| - 1]
  }

  /**
   * What the character loop of the two name hashes accumulates: it reads
   * the byte at index 0 before the loop and adds bytes from index 1 on.
   */
  function TailSum(s: CString): nat
  {
    if s == [] then 0 else Sum(s[1..])
  }

  /** The loop adds every byte of the name except the first. */
  lemma {:induction false} TailSumSkipsFirst(s: CString)
    requires s != []
    ensures TailSum(s) == Sum(s) - s[0]
  {
    if |s| > 1 {
      var t := s[..|s| - 1];
      TailSumSkipsFirst(t);
      assert s[1..][..|s| - 2] == t[1..];
    }
  }

  lemma ModAddAbsorb(a: nat, c: nat, m: nat)
    requires m == 0x1_0000_0000 || m == 0x1_0000_0000_0000_0000
    ensures (a % m + c) % m == (a + c) % m
  {
  }

  /**
   * name_value_hash_func: the byte sum of the name, accumulated in a 32-bit
   * `unsigned int` (so it wraps), reduced modulo the number of buckets.
   */
  method NameValueHash(key: CString, indexSize: nat) returns (h: nat)
    requires 0 < indexSize
    ensures h < indexSize
    ensures h == TailSum(key) % 0x1_0000_0000 % indexSize
  {
    var buf := key + [0];
    var sum: nat := 0;
    var i := 0;
    while buf[i] != 0
      invariant i <= |key|
      invariant sum == Sum(buf[1..i + 1]) % 0x1_0000_0000
      decreases |key| - i
    {
      i := i + 1;
      var c := buf[i];
      assert buf[1..i + 1][..i - 1] == buf[1..i];
      ModAddAbsorb(Sum(buf[1..i]), c, 0x1_0000_0000);
      sum := (sum + c) % 0x1_0000_0000;
    }
    TailSumOfTerminated(key, i);
    h := sum % indexSize;
  }

  /**
   * name_rbt_hash_func: the same byte sum, accumulated in a `uint64_t`
   * and returned whole.
   */
  method NameRbtHash(key: CString) returns (h: nat)
    ensures h < 0x1_0000_0000_0000_0000
    ensures h == TailSum(key) % 0x1_0000_0000_0000_0000
  {
    var buf := key + [0];
    var sum: nat := 0;
    var i := 0;
    while buf[i] != 0
      invariant i <= |key|
      invariant sum == Sum(buf[1..i + 1]) % 0x1_0000_0000_0000_0000
      decreases |key| - i
    {
      i := i + 1;
      var c := buf[i];
      assert buf[1..i + 1][..i - 1] == buf[1..i];
      ModAddAbsorb(Sum(buf[1..i]), c, 0x1_0000_0000_0000_0000);
      sum := (sum + c) % 0x1_0000_0000_0000_0000;
    }
    TailSumOfTerminated(key, i);
    h := sum;
  }

  /** The loop of the name hashes stops at the terminator, having added the bytes after the first. */
  lemma TailSumOfTerminated(key: CString, i: nat)
    requires i <= |key| && (key + [0])[i] == 0
    ensures i == |key| && Sum((key + [0])[1..i + 1]) == TailSum(key)
  {
    var buf := key + [0];
    if key != [] {
      assert buf[1..i + 1] == key[1..] + [0];
      assert (key[1..] + [0])[..|key| - 1] == key[1..];
    }
  }

  /** id_value_hash_func: the id itself (carried in the key pointer) modulo the number of buckets. */
  function IdValueHash(key: UInt32, indexSize: nat): (h: nat)
    requires 0 < indexSize
    ensures h < indexSize
    ensures key < indexSize ==> h == key
  {
    key % indexSize
  }

  /** id_rbt_hash_func: the id itself. */
  function IdRbtHash(key: UInt32): nat
  {
    key
  }

  /**
   * compare_name is `strcmp`: bytes are compared as `unsigned char` up to
   * the first difference or the terminator (read here as 0 past the end).
   * Callers use only the sign, so the result is -1, 0 or 1.
   */
  function CompareName(a: CString, b: CString): (r: int)
    ensures -1 <= r <= 1
    decreases |a|
  {
    var ca := if a == [] then 0 else a[0];
    var cb := if b == [] then 0 else b[0];
    if ca != cb then (if ca < cb then -1 else 1)
    else if ca == 0 then 0
    else CompareName(a[1..], b[1..])
  }

  /** compare_name reports 0 exactly for equal names. */
  lemma {:induction false} CompareNameZeroIff(a: CString, b: CString)
    ensures CompareName(a, b) == 0 <==> a == b
    decreases |a|
  {
    if a != [] && b != [] && a[0] == b[0] {
      CompareNameZeroIff(a[1..], b[1..]);
      assert a == [a[0]] + a[1..] && b == [b[0]] + b[1..];
    }
  }

  /** Swapping the arguments of compare_name negates its sign. */
  lemma {:induction false} CompareNameAntisymmetric(a: CString, b: CString)
    ensures CompareName(a, b) == -CompareName(b, a)
    decreases |a|
  {
    if a != [] && b != [] && a[0] == b[0] {
      CompareNameAntisymmetric(a[1..], b[1..]);
    }
  }

  /** compare_id: 0 for equal ids, 1 otherwise. */
  function CompareId(a: UInt32, b: UInt32): (r: int)
    ensures r == 0 <==> a == b
    ensures r == 0 || r == 1
  {
    if a == b then 0 else 1
  }

  /**
   * The hash callbacks agree with the comparisons: names that compare
   * equal have the same byte sum, and ids have the same tree value exactly
   * when they compare equal.
   */
  lemma HashesAgreeWithCompare(a: CString, b: CString, x: UInt32, y: UInt32)
    ensures CompareName(a, b) == 0 ==> TailSum(a) == TailSum(b)
    ensures IdRbtHash(x) == IdRbtHash(y) <==> CompareId(x, y) == 0
  {
    CompareNameZeroIff(a, b);
  }
}
