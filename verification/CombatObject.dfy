/** Health and shield of anything that can be shot, in hundredths of a point. */
module CombatObjects {

  /** accum collects shield times milliseconds until a whole point is due. */
  datatype Body = Body(maxHp: int, hp: int, deathPending: bool, maxShield: int, shield: int, reductionRate: int,
      regenPerSec: int, accum: int,
    lastAttacker: int)

  const NO_ATTACKER := 0xFFFF_FFFF

  predicate IsAlive(b: Body) { b.hp > 0 }

  function Min(a: int, b: int): int { if a <= b then a else b }

  /** C++ division, truncating toward zero. */
  function Div(a: int, b: int): int
    requires b > 0
  {
    if a >= 0 then a / b else -((-a) / b)
  }

  function Regen(b: Body, elapsedMs: nat): Body {
    if b.regenPerSec <= 0 || b.shield >= b.maxShield || !IsAlive(b) then b.(accum := 0)
    else
      var accum := b.accum + b.regenPerSec * elapsedMs;
      var gain := Div(accum, 1000);
      if gain <= 0 then b.(accum := accum)
      else b.(accum := accum - gain * 1000, shield := Min(b.shield + gain, b.maxShield))
  }

  function Hit(b: Body, damage: int, attacker: int): Body {
    var hp := if b.shield - damage <= 0 then b.hp + (b.shield - damage)
        else b.hp - Div(damage * (10000 - b.reductionRate), 10000);
    b.(shield := if b.shield - damage <= 0 then 0 else b.shield - damage,
       hp := if hp <= 0 then 0 else hp, deathPending := b.deathPending || hp <= 0,
       lastAttacker := attacker)
  }

  ghost predicate BodyOk(b: Body) {
    && 0 <= b.hp <= b.maxHp && 0 <= b.shield <= b.maxShield && 0 <= b.reductionRate <= 10000 && 0 <= b.accum < 1000
    && (b.deathPending <==> b.hp == 0)
  }

  /** What a shield that holds lets through: the part of the damage its reduction rate leaves, rounded down. */
  predicate LetsThrough(damage: int, reductionRate: int, loss: int) {
    10000 * loss <= damage * (10000 - reductionRate) < 10000 * (loss + 1)
  }

  /** A hit keeps both bars in range and kills exactly when health reaches zero.  A shield that breaks passes on
      what it does not stop; one that holds is worn by the whole damage and lets its share through. */
  lemma HitKeeps(b: Body, damage: int, attacker: int, loss: int)
    requires BodyOk(b) && damage >= 0
    ensures var b' := Hit(b, damage, attacker);
      && BodyOk(b') && b'.hp <= b.hp && b'.lastAttacker == attacker
      && (damage >= b.shield ==> b'.shield == 0 && b.hp - b'.hp == Min(b.hp, damage - b.shield))
      && (damage < b.shield && LetsThrough(damage, b.reductionRate, loss) ==>
            0 <= loss <= damage && b'.shield == b.shield - damage && b.hp - b'.hp == Min(b.hp, loss))
  {
    if damage < b.shield {
      var product := damage * (10000 - b.reductionRate);
      assert product >= 0;
      assert product <= damage * 10000;
      assert 10000 * loss <= product < 10000 * (loss + 1) ==> loss == product / 10000;
    }
  }

  /** There is always exactly one such loss. */
  lemma LossIsUnique(damage: int, reductionRate: int)
    requires damage >= 0 && 0 <= reductionRate <= 10000
    ensures exists loss ::
      LetsThrough(damage, reductionRate, loss) && forall other | LetsThrough(damage, reductionRate, other) ::
      other == loss
  {
    var product := damage * (10000 - reductionRate);
    assert LetsThrough(damage, reductionRate, product / 10000);
    forall other | LetsThrough(damage, reductionRate, other) ensures other == product / 10000 {}
  }

  function Total(ticks: seq<nat>): nat { if ticks == [] then 0 else Total(ticks[..|ticks| - 1]) + ticks[|ticks| - 1] }

  function After(b: Body, ticks: seq<nat>): Body {
    if ticks == [] then b else Regen(After(b, ticks[..|ticks| - 1]), ticks[|ticks| - 1])
  }

  lemma RegenStep(b: Body, elapsedMs: nat)
    requires 0 <= b.accum < 1000 && b.regenPerSec > 0 && b.shield < b.maxShield && IsAlive(b)
    ensures var b' := Regen(b, elapsedMs); var due := b.accum + b.regenPerSec * elapsedMs;
      && due >= 0 && 0 <= b'.accum < 1000 && due == 1000 * (due / 1000) + b'.accum
      && b'.shield == Min(b.shield + due / 1000, b.maxShield) && b'.(shield := b.shield, accum := b.accum) == b
  {
    assert b.regenPerSec * elapsedMs >= 0;
  }

  /** Nothing is regained without a rate, with a full shield or when dead, and what was collected is forgotten. */
  lemma NothingToRegain(b: Body, elapsedMs: nat)
    requires BodyOk(b)
    ensures b.regenPerSec <= 0 || b.shield == b.maxShield || b.hp == 0 ==> Regen(b, elapsedMs) == b.(accum := 0)
  {}

  lemma Distribute(r: int, x: int, y: int)
    ensures r * (x + y) == r * x + r * y
  {}

  /** The arithmetic of one more tick, worth x, after ticks worth due that left shield s and remainder a. */
  lemma OneMoreTick(max: int, s0: int, due: int, s: int, a: int, x: int)
    requires due >= 0 && x >= 0 && 0 <= a < 1000 && s == Min(s0 + due / 1000, max)
    requires s < max ==> 1000 * s + a == 1000 * s0 + due
    ensures s < max ==> Min(s + (a + x) / 1000, max) == Min(s0 + (due + x) / 1000, max)
    ensures s >= max ==> Min(s0 + (due + x) / 1000, max) == max
  {
    if s < max {
      assert due == 1000 * (s - s0) + a;
      assert (due + x) / 1000 == (s - s0) + (a + x) / 1000;
    }
  }

  /** However the time is cut into ticks, the shield is what the whole time at the full rate gives, up to its
      maximum: no rounding is lost between ticks. */
  lemma {:induction false} NoRoundingLost(b: Body, ticks: seq<nat>)
    requires 0 <= b.accum < 1000 && b.regenPerSec > 0 && 0 <= b.shield < b.maxShield && IsAlive(b)
    ensures var b' := After(b, ticks); var due := b.accum + b.regenPerSec * Total(ticks);
      && b'.shield == Min(b.shield + due / 1000, b.maxShield) && 0 <= b'.accum < 1000
      && (b'.shield < b.maxShield ==> 1000 * b'.shield + b'.accum == 1000 * b.shield + due)
      && b'.(shield := b.shield, accum := b.accum) == b
  {
    if ticks != [] {
      var r, t := ticks[..|ticks| - 1], ticks[|ticks| - 1];
      var m := After(b, r);
      NoRoundingLost(b, r);
      Distribute(b.regenPerSec, Total(r), t);
      Product(b.regenPerSec, t);
      Product(b.regenPerSec, Total(r));
      OneMoreTick(b.maxShield, b.shield, b.accum + b.regenPerSec * Total(r), m.shield, m.accum, b.regenPerSec * t);
      if m.shield < m.maxShield { RegenStep(m, t); }
    }
  }

  lemma Product(r: int, x: nat)
    requires r > 0
    ensures r * x >= 0
  {}

  class CombatObject {
    var maxHp: int
    var currentHp: int
    var deathPending: bool
    var maxShield: int
    var currentShield: int
    var damageReductionRate: int
    var shieldRegenPerSec: int
    var shieldRegenAccum: int
    var lastAttackerId: int

    ghost function View(): Body reads this {
      Body(maxHp, currentHp, deathPending, maxShield, currentShield, damageReductionRate, shieldRegenPerSec,
          shieldRegenAccum,
           lastAttackerId)
    }

    constructor (maxHp: int)
      requires maxHp > 0
      ensures View() == Body(maxHp, maxHp, false, 0, 0, 0, 0, 0, NO_ATTACKER) && BodyOk(View())
    {
      this.maxHp, currentHp, deathPending := maxHp, maxHp, false;
      maxShield, currentShield, damageReductionRate, shieldRegenPerSec, shieldRegenAccum := 0, 0, 0, 0, 0;
      lastAttackerId := NO_ATTACKER;
    }

    method ChargeShield(amount: int)
      modifies this`currentShield
      ensures currentShield == Min(old(currentShield) + amount, maxShield)
    {
      currentShield := currentShield + amount;
      if currentShield > maxShield { currentShield := maxShield; }
    }

    method RegenShield(elapsedMs: nat)
      modifies this`currentShield, this`shieldRegenAccum
      ensures View() == Regen(old(View()), elapsedMs)
    {
      if shieldRegenPerSec <= 0 || currentShield >= maxShield || currentHp <= 0 {
        shieldRegenAccum := 0;
        return;
      }
      shieldRegenAccum := shieldRegenAccum + shieldRegenPerSec * elapsedMs;
      var gain := Div(shieldRegenAccum, 1000);
      if gain <= 0 { return; }
      shieldRegenAccum := shieldRegenAccum - gain * 1000;
      ChargeShield(gain);
    }

    method TakeDamage(damage: int, attackerObjectId: int)
      modifies this`currentShield, this`currentHp, this`deathPending, this`lastAttackerId
      ensures View() == Hit(old(View()), damage, attackerObjectId)
    {
      lastAttackerId := attackerObjectId;
      var penetrated, hpDamage := false, 0;
      currentShield := currentShield - damage;
      if currentShield <= 0 {
        hpDamage := -currentShield;
        currentShield := 0;
        penetrated := true;
      }
      if penetrated {
        currentHp := currentHp - hpDamage;
      } else {
        currentHp := currentHp - Div(damage * (10000 - damageReductionRate), 10000);
      }
      if currentHp <= 0 {
        currentHp := 0;
        deathPending := true;
      }
    }
  }
}
