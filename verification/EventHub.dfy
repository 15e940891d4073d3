/** A live consumer of one Vault's signals: its queue holds at most one, merged from everything not yet taken. */
module EventHub {
  import opened Common
  import opened EventDomains

  /** The accumulation loop of `coalesce_signals`. */
  method CoalesceSignals(signals: seq<Signal>) returns (merged: Merged)
    ensures merged == Coalesce(signals)
  {
    merged := Nothing;
    for k := 0 to |signals|
      invariant !merged.MixedVaults? && merged == Coalesce(signals[..k])
    {
      assert signals[..k + 1][..k] == signals[..k];
      var s := signals[k];
      var domains := Normalize(List(s.domains));
      if merged.Nothing? {
        merged := One(Signal(s.vault, s.revision, domains, s.hasGap));
      } else if s.vault != merged.signal.vault {
        MixedStays(signals, k + 1);
        return MixedVaults;
      } else {
        var m := merged.signal;
        merged := One(Signal(m.vault, if m.revision < s.revision then s.revision else m.revision,
                             Normalize(List(m.domains + domains)), m.hasGap || s.hasGap));
      }
    }
    assert signals[..|signals|] == signals;
  }

  lemma {:induction false} MixedStays(signals: seq<Signal>, k: nat)
    requires k <= |signals| && Coalesce(signals[..k]).MixedVaults?
    ensures Coalesce(signals).MixedVaults?
    decreases |signals|
  {
    if k < |signals| {
      assert signals[..|signals| - 1][..k] == signals[..k];
      MixedStays(signals[..|signals| - 1], k);
    } else {
      assert signals[..k] == signals;
    }
  }

  /** Pairwise merging, as the queue does it, is merging everything at once. */
  lemma MergePending(signals: seq<Signal>, vault: VaultId, s: Signal)
    requires signals != [] && forall x | x in signals + [s] :: x.vault == vault && WellFormed(x.domains)
    ensures Coalesce(signals).One? && Coalesce([Coalesce(signals).signal, s]) == Coalesce(signals + [s])
  {
    forall x | x in signals ensures x.vault == vault && WellFormed(x.domains) {
      assert x in signals + [s];
    }
    CoalesceFacts(signals, vault);
    var m := Coalesce(signals).signal;
    assert (signals + [s])[..|signals|] == signals;
    WellFormedFixed(m.domains);
    assert [m][..0] == [] && Coalesce([m]) == One(m);
    assert [m, s][..1] == [m];
  }

  class Subscriber {
    const vault: VaultId
    var queue: seq<Option<Signal>>       // None tells the consumer that the stream is over
    var closed: bool
    ghost var waiting: seq<Signal>       // offered and not taken yet

    ghost predicate Valid()
      reads this
    {
      && (forall s | s in waiting :: s.vault == vault && WellFormed(s.domains))
      && (waiting != [] ==> Coalesce(waiting).One?)
      && queue == (if waiting == [] then [] else [Some(Coalesce(waiting).signal)]) + (if closed then [None] else [])
    }

    constructor (vault: VaultId)
      ensures Valid() && this.vault == vault && waiting == [] && !closed
    {
      this.vault, queue, closed, waiting := vault, [], false, [];
    }

    /** Merges the signal into the one that waits; a closed consumer ignores it. */
    method Offer(s: Signal)
      requires Valid() && s.vault == vault && WellFormed(s.domains)
      modifies this
      ensures Valid() && closed == old(closed)
      ensures waiting == if closed then old(waiting) else old(waiting) + [s]
      ensures !closed ==> |queue| == 1
    {
      if closed {
        return;
      }
      if queue == [] {
        assert [s][..0] == [] && Coalesce([s]) == One(s.(domains := Normalize(List(s.domains))));
        WellFormedFixed(s.domains);
        queue := [Some(s)];
      } else {
        MergePending(waiting, vault, s);
        var pending := queue[0].value;
        var merged := CoalesceSignals([pending, s]);
        CoalesceFacts(waiting + [s], vault);
        queue := [Some(merged.signal)];
      }
      waiting := waiting + [s];
    }

    /** The consumer gets one signal that stands for all that waited, or learns that the stream is over. */
    method Take() returns (s: Option<Signal>)
      requires Valid() && queue != []
      modifies this
      ensures old(waiting) == [] ==> s.None? && old(closed)
      ensures old(waiting) != [] ==>
        && Valid() && waiting == [] && closed == old(closed)
        && s.Some? && s.value.vault == vault
        && (forall x | x in old(waiting) :: x.revision <= s.value.revision && (x.hasGap ==> s.value.hasGap))
        && (forall x, d | x in old(waiting) && d in x.domains :: d in s.value.domains)
        && (exists x | x in old(waiting) :: x.revision == s.value.revision)
    {
      if waiting != [] {
        CoalesceFacts(waiting, vault);
      }
      s := queue[0];
      queue := queue[1..];
      waiting := [];
    }

    method Close()
      requires Valid()
      modifies this
      ensures Valid() && closed && waiting == old(waiting)
    {
      if !closed {
        closed := true;
        queue := queue + [None];
      }
    }
  }
}
