/** The four-activate window of a rank. */
module ActivationWindow {
  import opened DramTypes
  import opened Wrappers
  import opened CommandQueue

  predicate WindowOk(cfg: Config, w: seq<nat>) {
    && |w| <= 4
    && (forall i :: 0 <= i < |w| ==> 1 <= w[i] <= cfg.tFAW)
    && (forall i, j :: 0 <= i < j < |w| ==> w[i] < w[j])
  }

  /** The counters are those of the most recent activations; older ones are at least tFAW cycles back. */
  predicate WindowTells(cfg: Config, w: seq<nat>, acts: seq<int>, now: int) {
    && |w| <= |acts|
    && (forall i :: 0 <= i < |w| ==> acts[|acts| - |w| + i] == now - cfg.tFAW + w[i])
    && (forall i :: 0 <= i < |acts| - |w| ==> now - acts[i] >= cfg.tFAW)
  }

  predicate FourPerWindow(cfg: Config, acts: seq<int>) {
    forall i {:trigger acts[i]} :: 0 <= i && i + 4 < |acts| ==> acts[i + 4] - acts[i] >= cfg.tFAW
  }

  lemma AgeKeeps(cfg: Config, w: seq<nat>, acts: seq<int>, now: int)
    requires WindowOk(cfg, w) && WindowTells(cfg, w, acts, now)
    ensures WindowOk(cfg, AgeWindow(w)) && WindowTells(cfg, AgeWindow(w), acts, now + 1)
    ensures forall i :: 0 <= i < |AgeWindow(w)| ==> AgeWindow(w)[i] < cfg.tFAW
  {
    var aged := DecAll(w);
    var w' := AgeWindow(w);
    if |aged| > 0 && aged[0] == 0 {
      forall i | 0 <= i < |w'|
        ensures w'[i] == w[i + 1] - 1 && w[i + 1] > w[0]
      {
      }
      assert acts[|acts| - |w| + 0] == now - cfg.tFAW + w[0];
      forall i | 0 <= i < |w'|
        ensures acts[|acts| - |w'| + i] == now + 1 - cfg.tFAW + w'[i]
      {
        assert acts[|acts| - |w| + (i + 1)] == now - cfg.tFAW + w[i + 1];
      }
    }
  }

  /** An ACTIVATE is only sent while fewer than four are in the window. */
  lemma ActivateKeeps(cfg: Config, w: seq<nat>, acts: seq<int>, now: int)
    requires cfg.tFAW >= 1 && WindowOk(cfg, w) && WindowTells(cfg, w, acts, now) && |w| < 4
    requires forall i :: 0 <= i < |w| ==> w[i] < cfg.tFAW
    requires FourPerWindow(cfg, acts)
    ensures WindowOk(cfg, w + [cfg.tFAW]) && WindowTells(cfg, w + [cfg.tFAW], acts + [now], now)
    ensures FourPerWindow(cfg, acts + [now])
  {
    var acts', w' := acts + [now], w + [cfg.tFAW];
    forall i | 0 <= i < |w'|
      ensures acts'[|acts'| - |w'| + i] == now - cfg.tFAW + w'[i]
    {
      assert i < |w| ==> acts[|acts| - |w| + i] == now - cfg.tFAW + w[i];
    }
  }

  function Activations(acts: seq<int>, sent: Option<Packet>, now: int): seq<int> {
    if sent.Some? && sent.value.kind.ACTIVATE? then acts + [now] else acts
  }

  /** One call of pop keeps the window, its meaning, and the four-per-window rule for the whole history. */
  lemma PopKeepsWindow(cfg: Config, banks: seq<BankState>, q: QueueState, acts: seq<int>)
    requires cfg.Valid() && Shaped(cfg, banks, q)
    requires WindowOk(cfg, q.window) && WindowTells(cfg, q.window, acts, q.clock - 1) && FourPerWindow(cfg, acts)
    ensures
      var (q', sent) := Pop(cfg, banks, q);
      var acts' := Activations(acts, sent, q.clock);
      WindowOk(cfg, q'.window) && WindowTells(cfg, q'.window, acts', q.clock) && FourPerWindow(cfg, acts')
  {
    AgeKeeps(cfg, q.window, acts, q.clock - 1);
    var (q', sent) := Pop(cfg, banks, q);
    PopQueues(cfg, banks, q);
    if sent.Some? && sent.value.kind.ACTIVATE? {
      ActivateKeeps(cfg, AgeWindow(q.window), acts, q.clock);
      assert q'.window == AgeWindow(q.window) + [cfg.tFAW];
    } else {
      assert q'.window == AgeWindow(q.window);
    }
  }
}
