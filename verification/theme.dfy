/** The dark-mode flag and its persistence under the storage key `darkMode`.

    The effect runs after the mount and again after every render in which
    the flag changed.  Each run sees the flag of the render that scheduled
    it; a request to set the flag to the value it already has causes no new
    render, so no new run. */
module Theme {
  import opened Options

  /** `stored` is what the storage holds under `darkMode`; None when the key
      was never written. */
  datatype ThemeState = ThemeState(dark: bool, stored: Option<string>)

  /** The string the effect writes for a flag value. */
  function Persisted(dark: bool): (s: string)
    ensures s == "true" <==> dark
  {
    if dark then "true" else "false"
  }

  /** The storage agrees with the flag. */
  predicate Settled(t: ThemeState) {
    t.stored == Some(Persisted(t.dark))
  }

  /** One run of the effect as written.  A stored "true" requests the flag
      be set; independently, the storage is overwritten with the flag the
      run captured, which is the old one when the request changes it. */
  function EffectRun(t: ThemeState): (r: ThemeState)
    ensures t.stored == Some("true") ==> r.dark
    ensures t.stored != Some("true") ==> r.dark == t.dark
    ensures r.stored == Some("true") <==> t.dark
    ensures t.dark ==> r.dark
  {
    ThemeState(t.dark || t.stored == Some("true"), Some(Persisted(t.dark)))
  }

  /** Effect runs until the flag stops changing.  The flag can only change
      from false to true, so there are at most two runs. */
  function Settle(t: ThemeState): (r: ThemeState)
    ensures Settled(r) && EffectRun(r) == r
    ensures r.dark <==> t.dark || t.stored == Some("true")
    decreases if t.dark then 0 else 1
  {
    var n := EffectRun(t);
    if n.dark != t.dark then Settle(n) else n
  }

  /** The flag starts false and the effect runs once the component mounts:
      the previous session's preference is restored. */
  function Mount(stored: Option<string>): (r: ThemeState)
    ensures r.dark <==> stored == Some("true")
    ensures Settled(r)
  {
    Settle(ThemeState(false, stored))
  }

  /** A click on the theme toggle as written: the flag is negated and the
      effect runs until it settles. */
  function Toggle(t: ThemeState): (r: ThemeState)
    ensures Settled(r)
    ensures !t.dark ==> r.dark
    ensures t.dark && t.stored == Some("true") ==> r == t
  {
    Settle(t.(dark := !t.dark))
  }

  /** `n` clicks on the toggle. */
  function Toggles(t: ThemeState, n: nat): ThemeState
    decreases n
  {
    if n == 0 then t else Toggles(Toggle(t), n - 1)
  }

  /** As written, once dark mode is on and persisted, the toggle cannot turn
      it off: the run after the click sees "true" in the storage and asks
      for dark mode again. */
  lemma ToggleStaysDark()
    ensures Toggle(ThemeState(true, Some("true"))) == ThemeState(true, Some("true"))
  {
  }

  /** As written, no number of clicks leaves dark mode once it is persisted. */
  lemma {:induction false} TogglesStayDark(t: ThemeState, n: nat)
    requires Settled(t) && t.dark
    ensures Toggles(t, n) == t
    decreases n
  {
    if n > 0 {
      TogglesStayDark(Toggle(t), n - 1);
    }
  }

  /** As written, after the first click every later state is dark, whatever
      the storage held at mount. */
  lemma DarkForeverAfterFirstToggle(stored: Option<string>, n: nat)
    requires n >= 1
    ensures Toggles(Mount(stored), n).dark
  {
    var t1 := Toggle(Mount(stored));
    assert t1.dark && Settled(t1);
    TogglesStayDark(t1, n - 1);
  }

  /** Corrected effect: persist the flag and nothing else; the storage is
      read only at mount. */
  function EffectIntended(t: ThemeState): (r: ThemeState)
    ensures Settled(r) && r.dark == t.dark
  {
    t.(stored := Some(Persisted(t.dark)))
  }

  /** Corrected mount: read the stored preference once, then persist it. */
  function MountIntended(stored: Option<string>): (r: ThemeState)
    ensures r.dark <==> stored == Some("true")
    ensures Settled(r)
  {
    EffectIntended(ThemeState(stored == Some("true"), stored))
  }

  /** Corrected toggle: the flag flips and the storage follows it. */
  function ToggleIntended(t: ThemeState): (r: ThemeState)
    ensures r.dark == !t.dark
    ensures r.stored == Some("true") <==> !t.dark
  {
    EffectIntended(t.(dark := !t.dark))
  }

  /** `n` clicks on the corrected toggle. */
  function TogglesIntended(t: ThemeState, n: nat): ThemeState
    decreases n
  {
    if n == 0 then t else TogglesIntended(ToggleIntended(t), n - 1)
  }

  /** Corrected: two clicks return the flag and the stored value to where
      they were. */
  lemma ToggleIntendedTwice(t: ThemeState)
    requires Settled(t)
    ensures ToggleIntended(ToggleIntended(t)) == t
  {
  }

  /** Corrected: after `n` clicks the flag has flipped `n` times and the
      storage agrees with it. */
  lemma {:induction false} TogglesIntendedParity(t: ThemeState, n: nat)
    requires Settled(t)
    ensures TogglesIntended(t, n).dark == (if n % 2 == 0 then t.dark else !t.dark)
    ensures Settled(TogglesIntended(t, n))
    decreases n
  {
    if n > 0 {
      TogglesIntendedParity(ToggleIntended(t), n - 1);
    }
  }

  /** The written and the corrected behaviour agree at mount and on a click
      from light mode; they differ only on a click from dark mode. */
  lemma AgreeExceptLeavingDark(stored: Option<string>, t: ThemeState)
    ensures Mount(stored) == MountIntended(stored)
    ensures Settled(t) && !t.dark ==> Toggle(t) == ToggleIntended(t)
    ensures Settled(t) && t.dark ==> Toggle(t) != ToggleIntended(t)
  {
  }
}
