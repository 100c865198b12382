/** Keyboard chords of `src/ui.rs`: a chord is an optional key plus four
    modifier requirements, built up by value and matched against a snapshot
    of the input. The key type is left abstract. */
module Ui {

  import opened Wrappers

  // The modifier slots, in the order the source keeps them.
  const CTRL: nat := 0
  const COMMAND: nat := 1
  const SHIFT: nat := 2
  const ALT: nat := 3

  /** Four modifier requirements: `None` places no requirement, `Some(m)`
      requires the modifier's state to be `m`. */
  type Requirements = s: seq<Option<bool>> | |s| == 4 witness [None, None, None, None]

  datatype Chord<K> = Chord(key: Option<K>, modifiers: Requirements)

  /** The modifier keys held in an input snapshot. */
  datatype Modifiers = Modifiers(ctrl: bool, command: bool, shift: bool, alt: bool)

  /** An input snapshot: the keys pressed in this frame and the held modifiers. */
  datatype InputState<K> = InputState(pressed: set<K>, modifiers: Modifiers)

  /** The state of the modifier in the given slot. */
  function Held(m: Modifiers, slot: nat): bool
    requires slot < 4
  {
    if slot == CTRL then m.ctrl
    else if slot == COMMAND then m.command
    else if slot == SHIFT then m.shift
    else m.alt
  }

  /** `Chord::new`: no key and no modifier requirement. */
  function New<K>(): (c: Chord<K>)
    ensures c.key == None
    ensures forall slot | 0 <= slot < 4 :: c.modifiers[slot] == None
  {
    Chord(None, [None, None, None, None])
  }

  /** One requirement against the modifier's state: an unset requirement is
      always met. */
  function Meets(requirement: Option<bool>, held: bool): (ok: bool)
    ensures ok <==> requirement == None || requirement == Some(held)
  {
    match requirement
    case Some(m) => m == held
    case None => true
  }

  /** `Chord::matches`: the chord's key was pressed and every modifier
      requirement is met. A chord without a key never matches. */
  function Matches<K>(c: Chord<K>, input: InputState<K>): (r: bool)
    ensures r ==> c.key.Some? && c.key.value in input.pressed
    ensures r ==> forall slot | 0 <= slot < 4 :: c.modifiers[slot] == None || c.modifiers[slot] == Some(Held(input.modifiers, slot))
  {
    match c.key
    case Some(key) =>
      && key in input.pressed
      && Meets(c.modifiers[CTRL], input.modifiers.ctrl)
      && Meets(c.modifiers[COMMAND], input.modifiers.command)
      && Meets(c.modifiers[SHIFT], input.modifiers.shift)
      && Meets(c.modifiers[ALT], input.modifiers.alt)
    case None => false
  }

  /** `Chord::key`: the key becomes `k`; the requirements are unchanged. */
  function Key<K>(c: Chord<K>, k: K): (r: Chord<K>)
    ensures r.key == Some(k) && r.modifiers == c.modifiers
  {
    c.(key := Some(k))
  }

  /** Requires the modifier in `slot` to be held. */
  function Require<K>(c: Chord<K>, slot: nat): (r: Chord<K>)
    requires slot < 4
    ensures r.key == c.key && r.modifiers[slot] == Some(true)
    ensures forall other | 0 <= other < 4 && other != slot :: r.modifiers[other] == c.modifiers[other]
  {
    c.(modifiers := c.modifiers[slot := Some(true)])
  }

  /** `Chord::ctrl`. */
  function Ctrl<K>(c: Chord<K>): (r: Chord<K>)
    ensures r.key == c.key && r.modifiers[CTRL] == Some(true)
    ensures forall other | 0 <= other < 4 && other != CTRL :: r.modifiers[other] == c.modifiers[other]
  {
    Require(c, CTRL)
  }

  /** `Chord::command`. */
  function Command<K>(c: Chord<K>): (r: Chord<K>)
    ensures r.key == c.key && r.modifiers[COMMAND] == Some(true)
    ensures forall other | 0 <= other < 4 && other != COMMAND :: r.modifiers[other] == c.modifiers[other]
  {
    Require(c, COMMAND)
  }

  /** `Chord::shift`. */
  function Shift<K>(c: Chord<K>): (r: Chord<K>)
    ensures r.key == c.key && r.modifiers[SHIFT] == Some(true)
    ensures forall other | 0 <= other < 4 && other != SHIFT :: r.modifiers[other] == c.modifiers[other]
  {
    Require(c, SHIFT)
  }

  /** `Chord::alt`. */
  function Alt<K>(c: Chord<K>): (r: Chord<K>)
    ensures r.key == c.key && r.modifiers[ALT] == Some(true)
    ensures forall other | 0 <= other < 4 && other != ALT :: r.modifiers[other] == c.modifiers[other]
  {
    Require(c, ALT)
  }

  /** A matching chord is one whose key was pressed and whose every modifier
      requirement is met, and nothing else. */
  lemma MatchesExactly<K>(c: Chord<K>, input: InputState<K>)
    ensures Matches(c, input) <==>
      && c.key.Some? && c.key.value in input.pressed
      && forall slot | 0 <= slot < 4 :: Meets(c.modifiers[slot], Held(input.modifiers, slot))
  {
    if c.key.Some? && c.key.value in input.pressed
       && forall slot | 0 <= slot < 4 :: Meets(c.modifiers[slot], Held(input.modifiers, slot))
    {
      assert Meets(c.modifiers[CTRL], Held(input.modifiers, CTRL));
      assert Meets(c.modifiers[COMMAND], Held(input.modifiers, COMMAND));
      assert Meets(c.modifiers[SHIFT], Held(input.modifiers, SHIFT));
      assert Meets(c.modifiers[ALT], Held(input.modifiers, ALT));
    }
  }

  /** `Chord::new()` matches no input. */
  lemma NewNeverMatches<K>(input: InputState<K>)
    ensures !Matches(New(), input)
  {
  }

  /** The modifiers with the one in `slot` set to `held`. */
  function WithHeld(m: Modifiers, slot: nat, held: bool): (r: Modifiers)
    requires slot < 4
    ensures Held(r, slot) == held
    ensures forall other | 0 <= other < 4 && other != slot :: Held(r, other) == Held(m, other)
  {
    if slot == CTRL then m.(ctrl := held)
    else if slot == COMMAND then m.(command := held)
    else if slot == SHIFT then m.(shift := held)
    else m.(alt := held)
  }

  /** An unset requirement places no requirement: the state of that modifier
      does not change whether the chord matches. */
  lemma UnsetModifierIgnored<K>(c: Chord<K>, input: InputState<K>, slot: nat, held: bool)
    requires slot < 4 && c.modifiers[slot] == None
    ensures Matches(c, input) == Matches(c, input.(modifiers := WithHeld(input.modifiers, slot, held)))
  {
    var other := input.(modifiers := WithHeld(input.modifiers, slot, held));
    MatchesExactly(c, input);
    MatchesExactly(c, other);
    assert forall s | 0 <= s < 4 :: Meets(c.modifiers[s], Held(input.modifiers, s)) == Meets(c.modifiers[s], Held(other.modifiers, s));
  }

  /** A set requirement `Some(m)` is met only when the modifier's state is `m`. */
  lemma SetModifierRequired<K>(c: Chord<K>, input: InputState<K>, slot: nat)
    requires slot < 4 && c.modifiers[slot].Some? && Matches(c, input)
    ensures Held(input.modifiers, slot) == c.modifiers[slot].value
  {
  }

  /** Requiring a modifier twice is requiring it once. */
  lemma RequireIdempotent<K>(c: Chord<K>, slot: nat)
    requires slot < 4
    ensures Require(Require(c, slot), slot) == Require(c, slot)
  {
    assert Require(Require(c, slot), slot).modifiers == Require(c, slot).modifiers;
  }

  /** Modifier requirements can be added in either order. */
  lemma RequireCommutes<K>(c: Chord<K>, s: nat, t: nat)
    requires s < 4 && t < 4
    ensures Require(Require(c, s), t) == Require(Require(c, t), s)
  {
    assert Require(Require(c, s), t).modifiers == Require(Require(c, t), s).modifiers;
  }

  /** Setting the key twice keeps only the second key. */
  lemma KeyLastWins<K>(c: Chord<K>, k1: K, k2: K)
    ensures Key(Key(c, k1), k2) == Key(c, k2)
  {
  }

  /** The explorer toggle of `src/app.rs`, `Chord::new().ctrl().shift().key(E)`,
      matches exactly when E was pressed with ctrl and shift held, whatever
      the state of command and alt. */
  lemma CtrlShiftChord<K>(e: K, input: InputState<K>)
    ensures Matches(Key(Shift(Ctrl(New())), e), input)
        <==> e in input.pressed && input.modifiers.ctrl && input.modifiers.shift
  {
    var c := Key(Shift(Ctrl(New<K>())), e);
    assert c.modifiers == [Some(true), None, Some(true), None];
  }
}
