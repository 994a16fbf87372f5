/** The two pure pieces of the game bot's healer: the rule that decides
    whether a healing hotkey fires for the character's hit points and
    mana, and the mapping from the number typed at the console to a
    function-key hotkey. */
module Healer {

  /** `size_t`. */
  type SizeT = x: nat | x < 0x1_0000_0000_0000_0000

  /** `Hotkey`: the twelve function keys and UNKNOWN. */
  datatype Hotkey = F1 | F2 | F3 | F4 | F5 | F6 | F7 | F8 | F9 | F10 | F11 | F12 | Unknown

  /** `HealRule`: inclusive ranges of hit points and mana, and the hotkey
      to press when both hold. */
  datatype HealRule = HealRule(minHp: SizeT, maxHp: SizeT, minMana: SizeT, maxMana: SizeT, hotkey: Hotkey)

  /** x lies in the closed range [lo, hi]. */
  predicate InRange(lo: SizeT, hi: SizeT, x: SizeT)
  {
    lo <= x <= hi
  }

  /** `HealRule::passed` (a const member: the rule is a value and is not
      changed). */
  function Passed(rule: HealRule, hp: SizeT, mana: SizeT): (b: bool)
    ensures b ==> rule.minHp <= rule.maxHp && rule.minMana <= rule.maxMana
  {
    rule.minHp <= hp && hp <= rule.maxHp && rule.minMana <= mana && mana <= rule.maxMana
  }

  /** Both ends of the hit point range pass when the mana is in range. */
  lemma BoundsInclusive(rule: HealRule, mana: SizeT)
    requires rule.minHp <= rule.maxHp && InRange(rule.minMana, rule.maxMana, mana)
    ensures Passed(rule, rule.minHp, mana) && Passed(rule, rule.maxHp, mana)
  {
  }

  /** A rule with an empty range passes for no input. */
  lemma EmptyRangeNeverPasses(rule: HealRule, hp: SizeT, mana: SizeT)
    requires rule.minHp > rule.maxHp || rule.minMana > rule.maxMana
    ensures !Passed(rule, hp, mana)
  {
  }

  /** The hit points that pass form an interval: any value between two
      that pass passes too. */
  lemma PassedBetween(rule: HealRule, low: SizeT, hp: SizeT, high: SizeT, mana: SizeT)
    requires Passed(rule, low, mana) && Passed(rule, high, mana) && low <= hp <= high
    ensures Passed(rule, hp, mana)
  {
  }

  /** `size_tToHotkey`: 1 to 12 are F1 to F12; every other number is
      UNKNOWN. */
  function SizeTToHotkey(n: SizeT): (h: Hotkey)
    ensures h == Unknown <==> !(1 <= n <= 12)
  {
    match n
    case 1 => F1
    case 2 => F2
    case 3 => F3
    case 4 => F4
    case 5 => F5
    case 6 => F6
    case 7 => F7
    case 8 => F8
    case 9 => F9
    case 10 => F10
    case 11 => F11
    case 12 => F12
    case _ => Unknown
  }

  /** The number of a function key, 0 for UNKNOWN. */
  function KeyNumber(h: Hotkey): (n: SizeT)
    ensures h != Unknown <==> 1 <= n <= 12
  {
    match h
    case F1 => 1
    case F2 => 2
    case F3 => 3
    case F4 => 4
    case F5 => 5
    case F6 => 6
    case F7 => 7
    case F8 => 8
    case F9 => 9
    case F10 => 10
    case F11 => 11
    case F12 => 12
    case Unknown => 0
  }

  /** The mapping and the key numbers undo each other on 1 to 12 and on
      the twelve function keys. */
  lemma HotkeyRoundTrip(n: SizeT, h: Hotkey)
    ensures 1 <= n <= 12 ==> KeyNumber(SizeTToHotkey(n)) == n
    ensures h != Unknown ==> SizeTToHotkey(KeyNumber(h)) == h
  {
  }

  /** Distinct numbers from 1 to 12 give distinct hotkeys. */
  lemma HotkeyInjective(m: SizeT, n: SizeT)
    requires 1 <= m <= 12 && 1 <= n <= 12 && m != n
    ensures SizeTToHotkey(m) != SizeTToHotkey(n)
  {
    HotkeyRoundTrip(m, Unknown);
    HotkeyRoundTrip(n, Unknown);
  }
}
