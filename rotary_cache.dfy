/**
 * The lazily grown frequency table of the vision tower's 2D rotary
 * embedding. Only the shape of the table is modelled: row p is the abstract
 * row of angles for position p.
 */
module RotaryCache {
  import opened Common

  /** Row p of `torch.outer(arange(n), inv_freq)`: the angles of position p. */
  datatype FreqRow = FreqRow(position: nat)

  /** The table an `update_freqs_cache(n / 2)` builds for positions [0, n). */
  function Table(n: nat): (t: seq<FreqRow>)
    ensures |t| == n
  {
    seq(n, p requires 0 <= p < n => FreqRow(p))
  }

  /** The rows of a table depend on their position only. */
  lemma TableRow(n: nat, p: nat)
    requires p < n
    ensures Table(n)[p] == FreqRow(p)
  {
  }

  /** So a shorter table is a prefix of every longer one. */
  lemma TablePrefix(n: nat, m: nat)
    requires n <= m
    ensures Table(m)[..n] == Table(n)
  {
  }

  class Qwen2VisionRotaryEmbedding {
    const dim: nat
    const theta: real
    var seqLenCached: nat
    var freqsCached: Option<seq<FreqRow>>

    /** The cache is empty exactly when nothing was requested yet, and otherwise
        holds the table for every cached position. */
    ghost predicate Valid()
      reads this
    {
      && (seqLenCached == 0 <==> freqsCached.None?)
      && (freqsCached.Some? ==> freqsCached.value == Table(seqLenCached))
    }

    constructor (dim: nat, theta: real)
      ensures Valid()
      ensures this.dim == dim && this.theta == theta
      ensures seqLenCached == 0 && freqsCached == None
    {
      this.dim := dim;
      this.theta := theta;
      seqLenCached := 0;
      freqsCached := None;
    }

    /**
     * Rebuild the table for twice the requested length when the request
     * exceeds the cached length; otherwise keep everything. `after` is the
     * caller's `seqlen` after the call: `seqlen *= 2` rebinds a local int,
     * but doubles a 0-dim tensor argument (`tensorSeqlen`) in place.
     */
    method UpdateFreqsCache(seqlen: nat, tensorSeqlen: bool) returns (after: nat)
      requires Valid()
      modifies this
      ensures Valid()
      ensures old(seqLenCached) <= seqLenCached
      ensures seqlen > old(seqLenCached) ==> seqLenCached == 2 * seqlen
      ensures seqlen <= old(seqLenCached) ==>
        seqLenCached == old(seqLenCached) && freqsCached == old(freqsCached)
      ensures after == if tensorSeqlen && seqlen > old(seqLenCached) then 2 * seqlen else seqlen
    {
      after := seqlen;
      if seqlen > seqLenCached {
        var n := seqlen * 2;
        if tensorSeqlen {
          after := n;
        }
        seqLenCached := n;
        freqsCached := Some(Table(n));
      }
    }

    /**
     * forward(seqlen): the first `seqlen` rows of the (possibly rebuilt) table,
     * where `seqlen` is read after the update, so a tensor argument that
     * caused a rebuild selects all of the doubled table. None stands for the
     * TypeError of slicing the still-empty cache, which only a request of
     * length 0 on a fresh module reaches.
     */
    method Forward(seqlen: nat, tensorSeqlen: bool) returns (r: Option<seq<FreqRow>>)
      requires Valid()
      modifies this
      ensures Valid()
      ensures old(seqLenCached) <= seqLenCached
      ensures seqlen > old(seqLenCached) ==> seqLenCached == 2 * seqlen
      ensures seqlen <= old(seqLenCached) ==>
        seqLenCached == old(seqLenCached) && freqsCached == old(freqsCached)
      ensures r.None? <==> seqlen == 0 && old(seqLenCached) == 0
      ensures r.Some? ==>
        r.value == Table(if tensorSeqlen && seqlen > old(seqLenCached) then 2 * seqlen else seqlen)
    {
      var sliceEnd := UpdateFreqsCache(seqlen, tensorSeqlen);
      match freqsCached {
        case None =>
          r := None;
        case Some(freqs) =>
          r := Some(freqs[..sliceEnd]);
      }
    }
  }

  /**
   * Requests of length 5, then 3, then 100 on one module: the second answer is
   * a prefix of the first, and the rebuild for 100 agrees with the first
   * answer on its first 5 rows.
   */
  method PrefixScenario() returns (a: seq<FreqRow>, b: seq<FreqRow>, c: seq<FreqRow>)
    ensures |a| == 5 && |b| == 3 && |c| == 100
    ensures b == a[..3] && c[..5] == a
  {
    var rotary := new Qwen2VisionRotaryEmbedding(40, 10000.0);
    var ra := rotary.Forward(5, false);
    assert rotary.seqLenCached == 10;
    var rb := rotary.Forward(3, false);
    assert rotary.seqLenCached == 10;
    var rc := rotary.Forward(100, false);
    assert rotary.seqLenCached == 200;
    a, b, c := ra.value, rb.value, rc.value;
    TablePrefix(3, 5);
    TablePrefix(5, 100);
  }

  /**
   * `rot_pos_emb` passes a 0-dim tensor: the first request of length 5 on a
   * fresh module answers with all 10 rows it caches, and a later request of
   * 3 answers with 3 rows.
   */
  method TensorArgumentScenario() returns (a: seq<FreqRow>, b: seq<FreqRow>)
    ensures |a| == 10 && |b| == 3 && b == a[..3]
  {
    var rotary := new Qwen2VisionRotaryEmbedding(40, 10000.0);
    var ra := rotary.Forward(5, true);
    assert rotary.seqLenCached == 10;
    var rb := rotary.Forward(3, true);
    a, b := ra.value, rb.value;
    TablePrefix(3, 10);
  }
}
