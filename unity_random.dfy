/** Engine services the scripts rely on, reduced to what the model needs:
    an optional value (a C# reference that may be null) and UnityEngine.Random
    as an injected oracle. */
module UnityRandom {

  datatype Option<+T> = None | Some(value: T)

  /** The future outputs of the engine's random generator. Each call of
      Random.Range consumes one element. */
  type Oracle = seq<nat>

  /** Random.Range(lo, hi) for integers: a value in [lo, hi), or lo when the
      range is empty. The oracle's next element picks the value; an exhausted
      oracle yields lo. Every value the engine may return is reachable by some
      oracle, so no precondition is placed on the oracle. */
  function Range(rng: Oracle, lo: int, hi: int): (r: int)
    ensures lo < hi ==> lo <= r < hi
    ensures hi <= lo ==> r == lo
    ensures lo < hi && rng != [] ==> r == lo + rng[0] % (hi - lo)
  {
    if hi <= lo || rng == [] then lo else lo + rng[0] % (hi - lo)
  }

  /** The oracle after one call of Random.Range. */
  function Advance(rng: Oracle): (r: Oracle)
    ensures rng != [] ==> r == rng[1..]
    ensures rng == [] ==> r == []
  {
    if rng == [] then [] else rng[1..]
  }

  /** The oracle after `k` calls of Random.Range. */
  function Skip(rng: Oracle, k: nat): (r: Oracle)
    ensures |r| == if k <= |rng| then |rng| - k else 0
    ensures k <= |rng| ==> r == rng[k..]
    decreases k, rng
  {
    if k == 0 then rng else Skip(Advance(rng), k - 1)
  }

  /** Every value of the range is produced by some oracle. */
  lemma RangeSurjective(lo: int, hi: int, v: int)
    requires lo <= v < hi
    ensures Range([(v - lo) as nat], lo, hi) == v
  {
  }
}
