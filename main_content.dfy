/**
 * The wheel widget's state owner: the registry, the winners' history, the
 * spinning flag, the cumulative rotation and the announced winner, with the
 * deferred settle callback that a spin schedules.
 */
module MainContentState {
  import opened Palette
  import opened Registry
  import opened Spin

  datatype Option<T> = None | Some(value: T)

  /** What the settle callback captured when the spin started. */
  datatype PendingSettle = PendingSettle(winnerInfo: Participant, historySnapshot: seq<string>)

  /** The four entries the widget starts with. */
  function InitialParticipants(): (ps: seq<Participant>)
    ensures |ps| == 4
    ensures forall i :: 0 <= i < 4 ==> ps[i].color == WheelColors[i]
  {
    [Participant("player1", ColorAt(0)), Participant("player2", ColorAt(1)),
     Participant("player3", ColorAt(2)), Participant("player4", ColorAt(3))]
  }

  class MainContent {
    var participants: seq<Participant>
    var history: seq<string>
    var isSpinning: bool
    var rotation: real
    var winner: Option<Participant>
    /** The scheduled settle callback, if one is waiting to fire. */
    var pending: Option<PendingSettle>

    /**
     * A callback is waiting exactly while the wheel spins, no winner is shown
     * during a spin, and the rotation never goes below its initial 0.
     */
    ghost predicate Valid()
      reads this
    {
      && 0.0 <= rotation
      && (isSpinning <==> pending.Some?)
      && (isSpinning ==> winner.None?)
    }

    constructor ()
      ensures Valid()
      ensures participants == InitialParticipants() && history == []
      ensures !isSpinning && rotation == 0.0 && winner.None? && pending.None?
    {
      participants := InitialParticipants();
      history := [];
      isSpinning := false;
      rotation := 0.0;
      winner := None;
      pending := None;
    }

    /** The add button (or Enter) with `name` typed in the input. */
    method Add(name: string)
      requires Valid()
      modifies this
      ensures Valid()
      ensures participants == Added(old(participants), name)
      ensures history == old(history) && isSpinning == old(isSpinning) && rotation == old(rotation)
      ensures winner == old(winner) && pending == old(pending)
    {
      // A blank name (empty after `trim()`) is ignored; otherwise it is appended untrimmed.
      participants := Added(participants, name);
    }

    /** The remove control of the entry at `index`. */
    method Remove(index: int)
      requires Valid()
      modifies this
      ensures Valid()
      ensures participants == Without(old(participants), index)
      ensures history == old(history) && isSpinning == old(isSpinning) && rotation == old(rotation)
      ensures winner == old(winner) && pending == old(pending)
    {
      participants := Without(participants, index);
    }

    /** The clear-history button. */
    method ClearHistory()
      requires Valid()
      modifies this
      ensures Valid()
      ensures history == []
      ensures participants == old(participants) && isSpinning == old(isSpinning)
      ensures rotation == old(rotation) && winner == old(winner) && pending == old(pending)
    {
      history := [];
    }

    /**
     * The spin button, with `u` the value `Math.random()` returned. Ignored
     * while spinning or with an empty registry; otherwise clears the winner,
     * starts spinning, advances the rotation to the winner's target and
     * schedules the settle callback with the winner and the current history.
     */
    method Spin(u: real) returns (accepted: bool)
      requires Valid() && 0.0 <= u < 1.0
      modifies this
      ensures Valid()
      ensures accepted <==> !old(isSpinning) && |old(participants)| > 0
      ensures !accepted ==> unchanged(this)
      ensures accepted ==>
        var n := |old(participants)|;
        var idx := WinnerIndex(u, n);
        && isSpinning && winner.None?
        && rotation == NewRotation(old(rotation), idx, n) > old(rotation)
        && pending == Some(PendingSettle(old(participants)[idx], old(history)))
        && participants == old(participants) && history == old(history)
    {
      if isSpinning || |participants| == 0 {
        return false;
      }
      winner := None;
      isSpinning := true;
      var winnerIndex := WinnerIndex(u, |participants|);
      var winnerInfo := participants[winnerIndex];
      RotationAdvances(rotation, winnerIndex, |participants|);
      rotation := NewRotation(rotation, winnerIndex, |participants|);
      pending := Some(PendingSettle(winnerInfo, history));
      accepted := true;
    }

    /**
     * The settle callback firing: stops spinning, announces the captured
     * winner and prepends the winner's name to the captured history, not to
     * the current one. Nothing happens when no callback is waiting.
     */
    method Settle()
      requires Valid()
      modifies this
      ensures Valid()
      ensures old(pending).None? ==> unchanged(this)
      ensures old(pending).Some? ==>
        var p := old(pending).value;
        && !isSpinning && pending.None?
        && winner == Some(p.winnerInfo)
        && history == [p.winnerInfo.name] + p.historySnapshot
        && participants == old(participants) && rotation == old(rotation)
    {
      if pending.Some? {
        var p := pending.value;
        isSpinning := false;
        winner := Some(p.winnerInfo);
        history := [p.winnerInfo.name] + p.historySnapshot;
        pending := None;
      }
    }
  }

  /**
   * Clearing the history while the wheel turns does not last: the settle
   * callback writes back the history captured at spin time, plus the winner.
   */
  method ClearDuringSpinIsUndone(w: MainContent, u: real)
    requires w.Valid() && !w.isSpinning && |w.participants| > 0 && 0.0 <= u < 1.0
    modifies w
    ensures w.Valid() && !w.isSpinning
    ensures w.history == [old(w.participants)[WinnerIndex(u, |old(w.participants)|)].name] + old(w.history)
  {
    var accepted := w.Spin(u);
    w.ClearHistory();
    w.Settle();
  }

  /**
   * The announced winner is the entry captured at spin time, even when that
   * entry is removed from the registry before the spin settles.
   */
  method RemovalDuringSpinKeepsWinner(w: MainContent, u: real)
    requires w.Valid() && !w.isSpinning && |w.participants| > 0 && 0.0 <= u < 1.0
    modifies w
    ensures w.Valid()
    ensures var idx := WinnerIndex(u, |old(w.participants)|);
      && w.participants == Without(old(w.participants), idx)
      && w.winner == Some(old(w.participants)[idx])
  {
    var accepted := w.Spin(u);
    w.Remove(WinnerIndex(u, |w.participants|));
    w.Settle();
  }

  /** Three completed spins record their winners most recent first. */
  method ThreeRounds(w: MainContent, u1: real, u2: real, u3: real)
    requires w.Valid() && !w.isSpinning && |w.participants| > 0
    requires 0.0 <= u1 < 1.0 && 0.0 <= u2 < 1.0 && 0.0 <= u3 < 1.0
    modifies w
    ensures w.Valid() && !w.isSpinning && w.participants == old(w.participants)
    ensures var ps, n := old(w.participants), |old(w.participants)|;
      w.history == [ps[WinnerIndex(u3, n)].name, ps[WinnerIndex(u2, n)].name, ps[WinnerIndex(u1, n)].name]
                   + old(w.history)
  {
    var a := w.Spin(u1);
    w.Settle();
    var b := w.Spin(u2);
    w.Settle();
    var c := w.Spin(u3);
    w.Settle();
  }

  /** A spin requested while another is in flight changes nothing. */
  method SpinWhileSpinningIgnored(w: MainContent, u: real) returns (accepted: bool)
    requires w.Valid() && w.isSpinning && 0.0 <= u < 1.0
    modifies w
    ensures !accepted && unchanged(w)
  {
    accepted := w.Spin(u);
  }
}
