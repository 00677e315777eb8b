/**
 * Gauge state as the Prometheus client keeps it: a labelled family is a map
 * from label tuples to values. `Reset` clears the family, `Set` overwrites one
 * tuple and `Inc` adds one to it, a tuple never seen before reading as zero
 * (`WithLabelValues` creates a missing child at zero).
 */
module Gauges {
  import opened Wrappers

  type Labels = seq<string>

  type Family = map<Labels, real>

  /** One `WithLabelValues(labels...).Set(value)` call. */
  datatype Write = Write(labels: Labels, value: real)

  /** The value a series reads. */
  function Get(f: Family, k: Labels): real
  {
    if k in f then f[k] else 0.0
  }

  /** `GaugeVec.Reset()`. */
  function Reset(f: Family): (g: Family)
    ensures |g| == 0
  {
    map[]
  }

  /** `WithLabelValues(k...).Inc()`. */
  function Inc(f: Family, k: Labels): (g: Family)
    ensures g.Keys == f.Keys + {k}
    ensures Get(g, k) == Get(f, k) + 1.0
    ensures forall k' :: k' != k && k' in f ==> g[k'] == f[k']
  {
    f[k := Get(f, k) + 1.0]
  }

  /** Every tuple of the family has `n` labels (`WithLabelValues` panics on any other count). */
  predicate HasArity(f: Family, n: nat)
  {
    forall k :: k in f ==> |k| == n
  }

  predicate WritesHaveArity(w: seq<Write>, n: nat)
  {
    forall i :: 0 <= i < |w| ==> |w[i].labels| == n
  }

  /** The value the last write to `k` in `w` put there, if any write did. */
  function LastWrite(w: seq<Write>, k: Labels): Option<real>
  {
    if |w| == 0 then None
    else if w[|w| - 1].labels == k then Some(w[|w| - 1].value)
    else LastWrite(w[..|w| - 1], k)
  }

  /** `w[i]` is not overwritten by a later write in `w`. */
  predicate IsLastWrite(w: seq<Write>, i: int)
    requires 0 <= i < |w|
  {
    forall j :: i < j < |w| ==> w[j].labels != w[i].labels
  }

  /** A tuple has a last write iff some write names it, and that write's value is the one kept. */
  lemma {:induction false} LastWriteSpec(w: seq<Write>, k: Labels)
    ensures LastWrite(w, k).Some? <==> exists i :: 0 <= i < |w| && w[i].labels == k
    ensures forall i :: 0 <= i < |w| && w[i].labels == k && IsLastWrite(w, i) ==> LastWrite(w, k) == Some(w[i].value)
  {
    if |w| > 0 {
      var n := |w| - 1;
      LastWriteSpec(w[..n], k);
      assert forall i :: 0 <= i < n ==> w[..n][i] == w[i];
      if w[n].labels != k {
        forall i | 0 <= i < |w| && w[i].labels == k && IsLastWrite(w, i)
          ensures LastWrite(w, k) == Some(w[i].value)
        {
          assert i < n;
          assert IsLastWrite(w[..n], i);
        }
      }
    }
  }

  /**
   * Performing the writes of `w` in order on `f`: a tuple is present iff it
   * was present or written, and holds its last written value if it was written.
   */
  function Apply(f: Family, w: seq<Write>): (g: Family)
    ensures forall k :: k in g <==> k in f || LastWrite(w, k).Some?
    ensures forall k :: k in g ==> g[k] == if LastWrite(w, k).Some? then LastWrite(w, k).value else f[k]
  {
    if |w| == 0 then f
    else
      var n := |w| - 1;
      Apply(f, w[..n])[w[n].labels := w[n].value]
  }

  /** Writes keep every tuple at the family's label count. */
  lemma ApplyArity(f: Family, w: seq<Write>, n: nat)
    requires HasArity(f, n) && WritesHaveArity(w, n)
    ensures HasArity(Apply(f, w), n)
  {
    forall k | k in Apply(f, w) ensures |k| == n {
      if k !in f {
        LastWriteSpec(w, k);
      }
    }
  }

  /** Performing the same writes a second time changes nothing. */
  lemma ApplyIdempotent(f: Family, w: seq<Write>)
    ensures Apply(Apply(f, w), w) == Apply(f, w)
  {
  }

  /** Number of occurrences of `k` in `keys`. */
  function Occurrences(keys: seq<Labels>, k: Labels): nat
  {
    if |keys| == 0 then 0
    else Occurrences(keys[..|keys| - 1], k) + (if keys[|keys| - 1] == k then 1 else 0)
  }

  /** One `Inc` per element of `keys`, in order: every tuple grows by the number of times it is named. */
  function IncAll(f: Family, keys: seq<Labels>): (g: Family)
    ensures forall k :: k in g <==> k in f || k in keys
    ensures forall k :: Get(g, k) == Get(f, k) + Occurrences(keys, k) as real
  {
    if |keys| == 0 then f
    else
      var n := |keys| - 1;
      assert keys == keys[..n] + [keys[n]];
      Inc(IncAll(f, keys[..n]), keys[n])
  }

  lemma IncAllArity(f: Family, keys: seq<Labels>, n: nat)
    requires HasArity(f, n)
    requires forall i :: 0 <= i < |keys| ==> |keys[i]| == n
    ensures HasArity(IncAll(f, keys), n)
  {
  }
}
