/** The per-channel fade engine of the effect library: a fixed table of 512
    fade slots, each either idle or fading linearly from a start level to an
    end level over a duration, advanced against a clock reading that the
    caller passes in as `now` (milliseconds). */
module EffectEngine {
  import opened Common

  /** One slot of the fade table. A zeroed slot (`Idle`) is inactive. */
  datatype FadeState = FadeState(active: bool, start: uint8, end: uint8, t0: nat, dur: nat)

  const Idle: FadeState := FadeState(false, 0, 0, 0, 0)

  /** Saturating conversion of an int to a byte level. */
  function ClampU8(v: int): (r: uint8)
    ensures 0 <= v <= 255 ==> r == v
    ensures v < 0 ==> r == 0
    ensures v > 255 ==> r == 255
  {
    if v < 0 then 0 else if v > 255 then 255 else v
  }

  /** Milliseconds since `t0`, or 0 when the clock is not after `t0`. */
  function Elapsed(t0: nat, now: nat): (e: nat)
    ensures now <= t0 ==> e == 0
    ensures now > t0 ==> t0 + e == now
  {
    if now > t0 then now - t0 else 0
  }

  /** The level of a fade from `s` to `t` after `e` of `dur` milliseconds:
      the exact linear value x = ((dur-e)*s + e*t)/dur rounded to the nearest
      integer, ties going up (x - 1/2 < v <= x + 1/2, scaled by 2*dur below). */
  function Interpolate(s: uint8, t: uint8, e: nat, dur: nat): (v: int)
    requires e < dur
    ensures dur * (2 * v - 1) <= 2 * ((dur - e) * s + e * t) < dur * (2 * v + 1)
    ensures Min(s, t) <= v <= Max(s, t)
    ensures e == 0 ==> v == s
  {
    var v := (2 * ((dur - e) * s + e * t) + dur) / (2 * dur);
    InterpolateBounds(s, t, e, dur);
    v
  }

  /** A quotient lies in [lo, hi] when the dividend lies in [k*lo, k*hi + k). */
  lemma DivWithin(q: int, k: int, lo: int, hi: int)
    requires k > 0 && k * lo <= q < k * hi + k
    ensures lo <= q / k <= hi
  {
    var v := q / k;
    assert k * v <= q < k * v + k;
    if v < lo {
      MulLeftMono(k, v + 1, lo);
    }
    if v > hi {
      MulLeftMono(k, hi + 1, v);
    }
  }

  /** A weighted sum of two values in [lo, hi] lies in [(a+b)*lo, (a+b)*hi]. */
  lemma WeightedWithin(a: nat, b: nat, s: int, t: int, lo: int, hi: int)
    requires lo <= s <= hi && lo <= t <= hi
    ensures (a + b) * lo <= a * s + b * t <= (a + b) * hi
  {
    MulLeftMono(a, lo, s);
    MulLeftMono(a, s, hi);
    MulLeftMono(b, lo, t);
    MulLeftMono(b, t, hi);
  }

  /** Rounding m/dur half up: v = (2m + dur) / (2 dur) is within 1/2 of m/dur. */
  lemma RoundHalfUp(m: int, dur: int)
    requires dur > 0
    ensures var v := (2 * m + dur) / (2 * dur);
      dur * (2 * v - 1) <= 2 * m < dur * (2 * v + 1)
  {
    var k := 2 * dur;
    var q := 2 * m + dur;
    var v := q / k;
    assert k * v <= q < k * v + k;
    assert k * v == dur * (2 * v);
  }

  lemma InterpolateBounds(s: uint8, t: uint8, e: nat, dur: nat)
    requires e < dur
    ensures var v := (2 * ((dur - e) * s + e * t) + dur) / (2 * dur);
      dur * (2 * v - 1) <= 2 * ((dur - e) * s + e * t) < dur * (2 * v + 1) &&
      Min(s, t) <= v <= Max(s, t) &&
      (e == 0 ==> v == s)
  {
    var m := (dur - e) * s + e * t;
    var lo, hi := Min(s, t), Max(s, t);
    RoundHalfUp(m, dur);
    assert dur * lo <= m <= dur * hi by {
      WeightedWithin(dur - e, e, s, t, lo, hi);
    }
    assert 2 * dur * lo <= 2 * m + dur < 2 * dur * hi + 2 * dur by {
      assert 2 * dur * lo == 2 * (dur * lo);
      assert 2 * dur * hi == 2 * (dur * hi);
    }
    DivWithin(2 * m + dur, 2 * dur, lo, hi);
    if e == 0 {
      assert 2 * dur * s <= 2 * m + dur < 2 * dur * s + 2 * dur by {
        assert m == dur * s;
        assert 2 * dur * s == 2 * (dur * s);
      }
      DivWithin(2 * m + dur, 2 * dur, s, s);
    }
  }

  /** With exact arithmetic the saturation in `clamp_u8` never changes an interpolated level. */
  lemma ClampNeverBites(s: uint8, t: uint8, e: nat, dur: nat)
    requires e < dur
    ensures ClampU8(Interpolate(s, t, e, dur)) == Interpolate(s, t, e, dur)
  {
  }

  /** What one pass of the apply loop does to one slot: the slot's new state,
      the channel's new level and whether the channel counts as changed. */
  datatype SlotStep = SlotStep(fade: FadeState, level: uint8, changed: bool)

  function Advance(st: FadeState, cur: uint8, now: nat): (r: SlotStep)
    // only the active flag of a slot ever changes
    ensures r.fade == st.(active := r.fade.active)
    // an unchanged channel keeps its level
    ensures !r.changed ==> r.level == cur
    // an idle slot leaves its channel alone
    ensures !st.active ==> r.fade == st && r.level == cur && !r.changed
    // a fade whose time is up pins the level to its end, finishes and is counted
    ensures st.active && Elapsed(st.t0, now) >= st.dur ==>
      r.level == st.end && !r.fade.active && r.changed
    // a running fade stays active, lies between its start and end levels and
    // counts exactly when it moves the level
    ensures st.active && Elapsed(st.t0, now) < st.dur ==>
      r.fade.active && r.level == Interpolate(st.start, st.end, Elapsed(st.t0, now), st.dur) &&
      Min(st.start, st.end) <= r.level <= Max(st.start, st.end) &&
      (r.changed <==> r.level != cur)
  {
    if !st.active then SlotStep(st, cur, false)
    else
      var e := Elapsed(st.t0, now);
      if e >= st.dur then SlotStep(st.(active := false), st.end, true)
      else
        var v := ClampU8(Interpolate(st.start, st.end, e, st.dur));
        SlotStep(st, v, v != cur)
  }

  /** Number of channels among the first `n` that one apply pass counts as changed. */
  function ChangedCount(t: seq<FadeState>, d: seq<uint8>, n: nat, now: nat): (c: nat)
    requires n <= |t| && n <= |d|
    ensures c <= n
    ensures c == 0 <== forall i :: 0 <= i < n ==> !t[i].active
  {
    if n == 0 then 0
    else ChangedCount(t, d, n - 1, now) + (if Advance(t[n - 1], d[n - 1], now).changed then 1 else 0)
  }

  /** The channels among the first `n` that one apply pass counts as changed. */
  ghost function ChangedSet(t: seq<FadeState>, d: seq<uint8>, n: nat, now: nat): set<int>
    requires n <= |t| && n <= |d|
  {
    set i | 0 <= i < n && Advance(t[i], d[i], now).changed
  }

  /** The counter returned by apply is exactly the number of changed channels. */
  lemma {:induction false} ChangedCountIsCardinality(t: seq<FadeState>, d: seq<uint8>, n: nat, now: nat)
    requires n <= |t| && n <= |d|
    ensures ChangedCount(t, d, n, now) == |ChangedSet(t, d, n, now)|
  {
    if n == 0 {
      assert ChangedSet(t, d, n, now) == {};
    } else {
      ChangedCountIsCardinality(t, d, n - 1, now);
      var prev := ChangedSet(t, d, n - 1, now);
      var last := if Advance(t[n - 1], d[n - 1], now).changed then {n - 1} else {};
      assert ChangedSet(t, d, n, now) == prev + last by {
        assert forall i :: i in ChangedSet(t, d, n, now) <==> i in prev || i in last;
      }
      assert |prev + last| == |prev| + |last| by {
        assert n - 1 !in prev;
        assert prev !! last;
      }
    }
  }

  /** How many entries of the caller's array one apply pass examines. */
  function ScanLength(len: int): (n: nat)
    ensures n <= DMX_SLOTS
    ensures len <= 0 ==> n == 0
    ensures len > 0 ==> n == Min(len, DMX_SLOTS)
  {
    if len <= 0 then 0 else Min(len, DMX_SLOTS)
  }

  // ---- the fade table as a value, one function per table operation ----

  /** The table after `effects_init`. */
  function InitTable(): (t: seq<FadeState>)
    ensures |t| == DMX_SLOTS
    ensures forall i :: 0 <= i < |t| ==> t[i] == Idle
  {
    seq(DMX_SLOTS, _ => Idle)
  }

  predicate ValidChannel(channel: int)
  {
    1 <= channel <= DMX_SLOTS
  }

  /** The table after `effects_cancel(channel)`. */
  function Cancelled(t: seq<FadeState>, channel: int): (r: seq<FadeState>)
    requires |t| == DMX_SLOTS
    ensures |r| == DMX_SLOTS
    ensures !ValidChannel(channel) ==> r == t
    ensures ValidChannel(channel) ==> !r[channel - 1].active
    ensures forall i :: 0 <= i < DMX_SLOTS ==> r[i] == t[i].(active := r[i].active)
    ensures forall i :: 0 <= i < DMX_SLOTS && i != channel - 1 ==> r[i] == t[i]
  {
    if !ValidChannel(channel) then t
    else t[channel - 1 := t[channel - 1].(active := false)]
  }

  /** The table after `effects_cancel_all`. */
  function AllCancelled(t: seq<FadeState>): (r: seq<FadeState>)
    requires |t| == DMX_SLOTS
    ensures |r| == DMX_SLOTS
    ensures forall i :: 0 <= i < DMX_SLOTS ==> !r[i].active && r[i] == t[i].(active := false)
  {
    seq(DMX_SLOTS, i requires 0 <= i < DMX_SLOTS => t[i].(active := false))
  }

  /** The duration a fade actually gets: negative and zero requests become 1 ms. */
  function EffectiveDuration(durationMs: int): (d: nat)
    ensures d >= 1
    ensures durationMs >= 1 ==> d == durationMs
    ensures durationMs <= 1 ==> d == 1
  {
    if durationMs <= 0 then 1 else durationMs
  }

  /** The table after `effects_start_fade(channel, current, target, durationMs)` at time `now`. */
  function Started(t: seq<FadeState>, channel: int, current: uint8, target: uint8, durationMs: int, now: nat): (r: seq<FadeState>)
    requires |t| == DMX_SLOTS
    ensures |r| == DMX_SLOTS
    ensures !ValidChannel(channel) ==> r == t
    ensures ValidChannel(channel) ==>
      r[channel - 1] == FadeState(true, current, target, now, EffectiveDuration(durationMs))
    ensures forall i :: 0 <= i < DMX_SLOTS && i != channel - 1 ==> r[i] == t[i]
  {
    if !ValidChannel(channel) then t
    else t[channel - 1 := FadeState(true, current, target, now, EffectiveDuration(durationMs))]
  }

  /** `effects_is_active(channel)`: 1 when the channel's slot is fading, else 0. */
  function ActiveFlag(t: seq<FadeState>, channel: int): (r: int)
    requires |t| == DMX_SLOTS
    ensures r == 0 || r == 1
    ensures r == 1 <==> ValidChannel(channel) && t[channel - 1].active
  {
    if !ValidChannel(channel) then 0
    else if t[channel - 1].active then 1 else 0
  }

  // ---- the engine: the global table updated in place ----

  class FadeEngine {
    var fades: array<FadeState>

    ghost predicate Valid()
      reads this
    {
      fades.Length == DMX_SLOTS
    }

    /** The table as static storage starts: zeroed, like after `effects_init`. */
    constructor ()
      ensures Valid() && fresh(fades)
      ensures fades[..] == InitTable()
    {
      fades := new FadeState[DMX_SLOTS](_ => Idle);
    }

    /** `effects_init`: zero every slot. */
    method Init()
      requires Valid()
      modifies fades
      ensures fades[..] == InitTable()
    {
      forall i | 0 <= i < fades.Length {
        fades[i] := Idle;
      }
    }

    /** `effects_cancel`: stop the fade on one channel, leaving its level as it is. */
    method Cancel(channel: int)
      requires Valid()
      modifies fades
      ensures fades[..] == Cancelled(old(fades[..]), channel)
    {
      if channel < 1 || channel > DMX_SLOTS {
        return;
      }
      fades[channel - 1] := fades[channel - 1].(active := false);
    }

    /** `effects_cancel_all`: clear every slot's active flag. */
    method CancelAll()
      requires Valid()
      modifies fades
      ensures fades[..] == AllCancelled(old(fades[..]))
    {
      for i := 0 to DMX_SLOTS
        invariant forall j :: 0 <= j < i ==> fades[j] == old(fades[j]).(active := false)
        invariant forall j :: i <= j < DMX_SLOTS ==> fades[j] == old(fades[j])
      {
        fades[i] := fades[i].(active := false);
      }
    }

    /** `effects_start_fade`, with the clock reading passed in as `now`. */
    method StartFade(channel: int, current: uint8, target: uint8, durationMs: int, now: nat)
      requires Valid()
      modifies fades
      ensures fades[..] == Started(old(fades[..]), channel, current, target, durationMs, now)
    {
      if channel < 1 || channel > DMX_SLOTS {
        return;
      }
      var d := durationMs;
      if d < 0 {
        d := 0;
      }
      fades[channel - 1] := FadeState(true, current, target, now, if d == 0 then 1 else d);
    }

    /** `effects_apply`: advance every active fade among the first
        min(len, 512) channels to time `now`, writing levels into `dmx`,
        and return how many channels changed. A null `dmx` is `null`. */
    method Apply(dmx: array?<uint8>, len: int, now: nat) returns (changed: int)
      requires Valid()
      requires dmx != null ==> ScanLength(len) <= dmx.Length
      modifies fades, dmx
      ensures dmx == null ==> changed == 0 && fades[..] == old(fades[..])
      ensures dmx != null ==>
        var n := ScanLength(len);
        changed == ChangedCount(old(fades[..]), old(dmx[..]), n, now) &&
        (forall i :: 0 <= i < n ==>
          fades[i] == Advance(old(fades[i]), old(dmx[i]), now).fade &&
          dmx[i] == Advance(old(fades[i]), old(dmx[i]), now).level) &&
        (forall i :: n <= i < DMX_SLOTS ==> fades[i] == old(fades[i])) &&
        (forall i :: n <= i < dmx.Length ==> dmx[i] == old(dmx[i]))
    {
      if dmx == null || len <= 0 {
        return 0;
      }
      var n := len;
      if n > DMX_SLOTS {
        n := DMX_SLOTS;
      }
      changed := 0;
      var i := 0;
      while i < n
        invariant 0 <= i <= n == ScanLength(len)
        invariant changed == ChangedCount(old(fades[..]), old(dmx[..]), i, now)
        invariant forall j :: 0 <= j < i ==>
          fades[j] == Advance(old(fades[j]), old(dmx[j]), now).fade &&
          dmx[j] == Advance(old(fades[j]), old(dmx[j]), now).level
        invariant forall j :: i <= j < DMX_SLOTS ==> fades[j] == old(fades[j])
        invariant forall j :: i <= j < dmx.Length ==> dmx[j] == old(dmx[j])
      {
        var st := fades[i];
        if st.active {
          var elapsed := Elapsed(st.t0, now);
          if elapsed >= st.dur {
            dmx[i] := st.end;
            fades[i] := st.(active := false);
            changed := changed + 1;
          } else {
            var v := ClampU8(Interpolate(st.start, st.end, elapsed, st.dur));
            if dmx[i] != v {
              dmx[i] := v;
              changed := changed + 1;
            }
          }
        }
        i := i + 1;
      }
    }

    /** `effects_is_active`. */
    method IsActive(channel: int) returns (r: int)
      requires Valid()
      ensures r == ActiveFlag(fades[..], channel)
    {
      if channel < 1 || channel > DMX_SLOTS {
        return 0;
      }
      r := if fades[channel - 1].active then 1 else 0;
    }
  }

  // ---- properties relating the operations ----

  /** After `effects_init` no channel reports an active fade. */
  lemma NothingActiveAfterInit(channel: int)
    ensures ActiveFlag(InitTable(), channel) == 0
  {
  }

  /** Cancelling twice is cancelling once, and a cancelled channel is idle. */
  lemma CancelIdempotent(t: seq<FadeState>, channel: int)
    requires |t| == DMX_SLOTS
    ensures Cancelled(Cancelled(t, channel), channel) == Cancelled(t, channel)
    ensures ActiveFlag(Cancelled(t, channel), channel) == 0
  {
  }

  /** Cancelling everything twice is cancelling everything once. */
  lemma AllCancelledIdempotent(t: seq<FadeState>)
    requires |t| == DMX_SLOTS
    ensures AllCancelled(AllCancelled(t)) == AllCancelled(t)
    ensures forall channel :: ActiveFlag(AllCancelled(t), channel) == 0
  {
  }

  /** A cancelled channel keeps its level on every later apply pass. */
  lemma CancelFreezesLevel(t: seq<FadeState>, channel: int, cur: uint8, now: nat)
    requires |t| == DMX_SLOTS && ValidChannel(channel)
    ensures Advance(Cancelled(t, channel)[channel - 1], cur, now) ==
      SlotStep(Cancelled(t, channel)[channel - 1], cur, false)
  {
  }

  /** A fade started at `t0` reports active, and applying it at `t0` itself
      yields its start level, counted only when the channel was elsewhere. */
  lemma FadeBeginsAtStart(t: seq<FadeState>, channel: int, current: uint8, target: uint8,
                          durationMs: int, t0: nat, cur: uint8)
    requires |t| == DMX_SLOTS && ValidChannel(channel)
    ensures ActiveFlag(Started(t, channel, current, target, durationMs, t0), channel) == 1
    ensures var r := Advance(Started(t, channel, current, target, durationMs, t0)[channel - 1], cur, t0);
      r.level == current && r.fade.active && (r.changed <==> cur != current)
  {
    var st := Started(t, channel, current, target, durationMs, t0)[channel - 1];
    assert Elapsed(st.t0, t0) == 0 < st.dur;
  }

  /** Once the duration has passed, a fade lands exactly on its target and
      the channel stops reporting an active fade. */
  lemma FadeEndsAtTarget(t: seq<FadeState>, channel: int, current: uint8, target: uint8,
                         durationMs: int, t0: nat, cur: uint8, now: nat)
    requires |t| == DMX_SLOTS && ValidChannel(channel)
    requires now >= t0 + EffectiveDuration(durationMs)
    ensures var r := Advance(Started(t, channel, current, target, durationMs, t0)[channel - 1], cur, now);
      r.level == target && r.changed &&
      ActiveFlag(Started(t, channel, current, target, durationMs, t0)[channel - 1 := r.fade], channel) == 0
  {
    var st := Started(t, channel, current, target, durationMs, t0)[channel - 1];
    assert Elapsed(st.t0, now) >= st.dur;
  }

  /** A fade from 0 to 255 over two seconds sits at 128 after one second. */
  lemma FadeMidpoint(t: seq<FadeState>, channel: int, t0: nat, cur: uint8)
    requires |t| == DMX_SLOTS && ValidChannel(channel)
    ensures Advance(Started(t, channel, 0, 255, 2000, t0)[channel - 1], cur, t0 + 1000).level == 128
  {
    var st := Started(t, channel, 0, 255, 2000, t0)[channel - 1];
    assert Elapsed(st.t0, t0 + 1000) == 1000;
    assert Interpolate(0, 255, 1000, 2000) == (2 * (1000 * 255) + 2000) / 4000;
  }
}
