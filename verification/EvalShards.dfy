/** workflows/eval_shard.py: the id `i/N` of a shard, as records carry it and readers parse it. */
module EvalShards {
  import opened Wrappers
  import opened PyStrings

  predicate IsDigit(c: char) {
    '0' <= c <= '9'
  }

  function DigitValue(c: char): (n: nat)
    requires IsDigit(c)
    ensures n < 10
  {
    c as int - '0' as int
  }

  predicate Digits(s: string) {
    s != "" && forall c :: c in s ==> IsDigit(c)
  }

  /** `int(s)` of a string of digits. */
  function NatOf(s: string): nat
    requires Digits(s)
  {
    var n := |s| - 1;
    assert s[n] in s;
    if n == 0 then DigitValue(s[0])
    else
      assert forall c :: c in s[..n] ==> c in s;
      10 * NatOf(s[..n]) + DigitValue(s[n])
  }

  /** `f"{index}/{count}"` */
  function ShardId(index: nat, count: nat): string {
    Decimal(index) + "/" + Decimal(count)
  }

  /** The index and the count of a shard id; None where the code raises. */
  function ParseEvalShard(value: string): Option<(nat, nat)> {
    match SplitAtLast(Strip(value, IsSpace), '/')
    case None => None
    case Some((left, right)) =>
      if !Digits(left) || !Digits(right) then None
      else if NatOf(right) < 2 || NatOf(left) >= NatOf(right) then None
      else Some((NatOf(left), NatOf(right)))
  }

  lemma {:induction false} DecimalReads(n: nat)
    ensures Digits(Decimal(n)) && NatOf(Decimal(n)) == n
  {
    var s := Decimal(n);
    if n >= 10 {
      DecimalReads(n / 10);
      assert s[..|s| - 1] == Decimal(n / 10);
    }
  }

  /** A printed id parses back iff it is the id of a shard of at least two. */
  lemma ShardIdParsesIff(index: nat, count: nat)
    ensures ParseEvalShard(ShardId(index, count))
         == if 2 <= count && index < count then Some((index, count)) else None
  {
    DecimalReads(index);
    DecimalReads(count);
    hide Decimal, NatOf, SplitAtLast;
    var s := ShardId(index, count);
    assert s[0] in Decimal(index) && s[|s| - 1] in Decimal(count);
    assert Strip(s, IsSpace) == s;
    assert !IsDigit('/');
    SplitAtLastOf(Decimal(index), '/', Decimal(count));
  }
}
