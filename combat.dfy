/** What one frame's collision passes do, as functions of the collections
    they run over. Overlap between two bounding boxes is not computed here: the
    caller supplies it per index (`touches(k)`: entity k overlaps the player;
    `hit(i, j)`: bullet i overlaps enemy j), as it stands for the positions of
    that frame. */
module Combat {
  import opened Entities
  import opened Collections
  import opened Vitals

  datatype Option<T> = None | Some(value: T)

  // ------------------------------------------------------ enemy × player

  /** An enemy after its frame update: a live enemy moves to `to` (where its
      pursuit of the player takes it); a dead one stays where it is. */
  function Pursued(e: Enemy, to: Vec): (r: Enemy)
    ensures r.active == e.active && r.kind == e.kind && r.damage == e.damage
    ensures r.pos == if e.active then to else e.pos
  {
    if e.active then e.(pos := to) else e
  }

  /** An enemy after the contact check: a live enemy that touches the player
      is consumed; nothing else about it changes. */
  function Consumed(e: Enemy, touching: bool): (r: Enemy)
    ensures r.active <==> e.active && !touching
    ensures r.(active := e.active) == e
  {
    if touching && e.active then e.(active := false) else e
  }

  /** Damage dealt to the player by the first n enemies of the contact pass:
      that of every live enemy touching the player, once each. */
  function ContactDamage(es: seq<Enemy>, touches: nat -> bool, n: nat): int
    requires n <= |es|
  {
    if n == 0 then 0
    else ContactDamage(es, touches, n - 1)
         + (if es[n - 1].active && touches(n - 1) then es[n - 1].damage else 0)
  }

  /** Health after the first n enemies of the contact pass, one hit at a time. */
  function ContactHealth(health: int, es: seq<Enemy>, touches: nat -> bool, n: nat): (r: int)
    requires n <= |es|
    ensures 0 <= health ==> 0 <= r
  {
    if n == 0 then health
    else
      var h := ContactHealth(health, es, touches, n - 1);
      if es[n - 1].active && touches(n - 1) then AfterDamage(h, es[n - 1].damage) else h
  }

  /** The contact pass costs the player the total damage of the enemies it
      consumes, clamped at zero: health ends in [0, health]. */
  lemma {:induction false} ContactHealthIsClampedTotal(health: int, es: seq<Enemy>, touches: nat -> bool, n: nat)
    requires 0 <= health && n <= |es|
    requires forall k :: 0 <= k < |es| ==> es[k].damage >= 0
    ensures ContactDamage(es, touches, n) >= 0
    ensures ContactHealth(health, es, touches, n) == AfterDamage(health, ContactDamage(es, touches, n))
  {
    if n > 0 {
      ContactHealthIsClampedTotal(health, es, touches, n - 1);
      var d := if es[n - 1].active && touches(n - 1) then es[n - 1].damage else 0;
      DamageAccumulates(health, ContactDamage(es, touches, n - 1), d);
    }
  }

  /** The enemies after the contact pass: each moved by its pursuit, then
      consumed if it is live and touches the player. */
  function Contacts(es: seq<Enemy>, to: nat -> Vec, touches: nat -> bool): (r: seq<Enemy>)
    ensures |r| == |es|
  {
    seq(|es|, k requires 0 <= k < |es| => Consumed(Pursued(es[k], to(k)), touches(k)))
  }

  /** The contact pass only kills: every enemy keeps its kind and damage, is
      live afterwards exactly when it was live and did not touch the player,
      and the live count never grows. */
  lemma ContactsOnlyKill(es: seq<Enemy>, to: nat -> Vec, touches: nat -> bool)
    ensures |Contacts(es, to, touches)| == |es|
    ensures forall k :: 0 <= k < |es| ==>
      var c := Contacts(es, to, touches)[k];
      c.kind == es[k].kind && c.damage == es[k].damage && (c.active <==> es[k].active && !touches(k))
    ensures |Survivors(Contacts(es, to, touches), EnemyLive)| <= |Survivors(es, EnemyLive)|
  {
    var cs := Contacts(es, to, touches);
    forall k | 0 <= k < |es|
      ensures cs[k].kind == es[k].kind && cs[k].damage == es[k].damage
      ensures cs[k].active <==> es[k].active && !touches(k)
    {
      var moved := Pursued(es[k], to(k));
      assert cs[k] == Consumed(moved, touches(k));
    }
    SurvivorsMonotone(es, cs, EnemyLive);
  }

  /** A full-health player touched by one live enemy of the first kind ends
      at 85 and the enemy is consumed. */
  lemma ContactScenario(e: Enemy)
    requires e.active && e.kind == Type1 && WellFormed(e)
    ensures ContactHealth(MaxHealth, [e], _ => true, 1) == 85
    ensures !Consumed(e, true).active
  {
  }

  // ------------------------------------------------------ powerup × player

  /** Health a health boost restores. */
  const HealAmount: int := 20

  /** A powerup is picked up in a frame when it is still live after aging and
      touches the player. */
  predicate Grabbed(p: Powerup, dt: real, touching: bool) {
    touching && Age(p, dt).active
  }

  /** A powerup after its frame: aged, and consumed if picked up, whatever its
      kind and whatever the player's health. */
  function Collected(p: Powerup, dt: real, touching: bool): (r: Powerup)
    ensures r.lifetime == p.lifetime - dt && r.pos == p.pos && r.kind == p.kind
    ensures r.active <==> Age(p, dt).active && !touching
  {
    var q := Age(p, dt);
    if touching && q.active then q.(active := false) else q
  }

  /** The powerups after the pickup pass. */
  function Pickups(ps: seq<Powerup>, dt: real, touches: nat -> bool): (r: seq<Powerup>)
    ensures |r| == |ps|
  {
    seq(|ps|, k requires 0 <= k < |ps| => Collected(ps[k], dt, touches(k)))
  }

  /** Health boosts picked up among the first n powerups. */
  function HealthGrabs(ps: seq<Powerup>, dt: real, touches: nat -> bool, n: nat): (r: nat)
    requires n <= |ps|
    ensures r <= n
  {
    if n == 0 then 0
    else HealthGrabs(ps, dt, touches, n - 1)
         + (if Grabbed(ps[n - 1], dt, touches(n - 1)) && ps[n - 1].kind == HealthBoost then 1 else 0)
  }

  /** Speed boosts picked up among the first n powerups. */
  function SpeedGrabs(ps: seq<Powerup>, dt: real, touches: nat -> bool, n: nat): (r: nat)
    requires n <= |ps|
    ensures r <= n
  {
    if n == 0 then 0
    else SpeedGrabs(ps, dt, touches, n - 1)
         + (if Grabbed(ps[n - 1], dt, touches(n - 1)) && ps[n - 1].kind == SpeedBoost then 1 else 0)
  }

  /** Health after the first n powerups: a picked-up health boost heals only
      while the player is below full health. */
  function PickupHealth(health: int, ps: seq<Powerup>, dt: real, touches: nat -> bool, n: nat): (r: int)
    requires n <= |ps|
    ensures health <= r
    ensures health <= MaxHealth ==> r <= MaxHealth
  {
    if n == 0 then health
    else
      var h := PickupHealth(health, ps, dt, touches, n - 1);
      if Grabbed(ps[n - 1], dt, touches(n - 1)) && ps[n - 1].kind == HealthBoost && h < MaxHealth
      then AfterHeal(h, HealAmount, MaxHealth)
      else h
  }

  /** The pickups heal the player by HealAmount per health boost, capped at
      full health: health ends in [health, MaxHealth]. */
  lemma {:induction false} PickupHealthIsCappedTotal(health: int, ps: seq<Powerup>, dt: real, touches: nat -> bool, n: nat)
    requires 0 <= health <= MaxHealth && n <= |ps|
    ensures PickupHealth(health, ps, dt, touches, n)
            == AfterHeal(health, HealAmount * HealthGrabs(ps, dt, touches, n), MaxHealth)
  {
    if n > 0 {
      PickupHealthIsCappedTotal(health, ps, dt, touches, n - 1);
    }
  }

  /** A health boost touched at full health still leaves the field, but
      heals nothing: the heal is skipped, not clamped. */
  lemma FullHealthPickupScenario(p: Powerup, dt: real)
    requires p.active && p.kind == HealthBoost && p.lifetime - dt > 0.0
    ensures PickupHealth(MaxHealth, [p], dt, _ => true, 1) == MaxHealth
    ensures HealthGrabs([p], dt, _ => true, 1) == 1
    ensures !Collected(p, dt, true).active
  {
  }

  // ------------------------------------------------------ bullet × enemy

  /** Bullet `bullet` destroyed enemy `enemy`. */
  datatype Hit = Hit(bullet: nat, enemy: nat)

  /** The bullets and enemies after the pass, and the hits it scored in order. */
  datatype Volley = Volley(bullets: seq<Bullet>, enemies: seq<Enemy>, hits: seq<Hit>)

  /** The first enemy at or after `from` that is live and overlaps bullet i. */
  function FirstTarget(es: seq<Enemy>, i: nat, hit: (nat, nat) -> bool, from: nat): (r: Option<nat>)
    decreases |es| - from
    ensures r.Some? ==> from <= r.value < |es| && es[r.value].active && hit(i, r.value)
    ensures forall j :: from <= j < |es| && (r.None? || j < r.value) ==> !(es[j].active && hit(i, j))
  {
    if from >= |es| then None
    else if es[from].active && hit(i, from) then Some(from)
    else FirstTarget(es, i, hit, from + 1)
  }

  /** The pass over bullets i.. against every enemy: a live bullet destroys
      the first live enemy it overlaps, and both die on the spot. */
  function HitPass(bs: seq<Bullet>, es: seq<Enemy>, hit: (nat, nat) -> bool, i: nat): Volley
    decreases |bs| - i
  {
    if i >= |bs| then Volley(bs, es, [])
    else if !bs[i].active then HitPass(bs, es, hit, i + 1)
    else match FirstTarget(es, i, hit, 0)
      case None => HitPass(bs, es, hit, i + 1)
      case Some(k) =>
        var r := HitPass(bs[i := bs[i].(active := false)], es[k := es[k].(active := false)], hit, i + 1);
        Volley(r.bullets, r.enemies, [Hit(i, k)] + r.hits)
  }

  /** The pass only kills: lengths are kept, bullets before i are untouched,
      and every other entry is either unchanged or the same entity, now dead. */
  lemma {:induction false} HitPassShape(bs: seq<Bullet>, es: seq<Enemy>, hit: (nat, nat) -> bool, i: nat)
    ensures |HitPass(bs, es, hit, i).bullets| == |bs|
    ensures |HitPass(bs, es, hit, i).enemies| == |es|
    ensures forall j :: 0 <= j < |bs| ==>
      HitPass(bs, es, hit, i).bullets[j] == bs[j] ||
      (i <= j && bs[j].active && HitPass(bs, es, hit, i).bullets[j] == bs[j].(active := false))
    ensures forall j :: 0 <= j < |es| ==>
      HitPass(bs, es, hit, i).enemies[j] == es[j] ||
      (es[j].active && HitPass(bs, es, hit, i).enemies[j] == es[j].(active := false))
    decreases |bs| - i
  {
    if i < |bs| {
      if !bs[i].active {
        HitPassShape(bs, es, hit, i + 1);
      } else {
        match FirstTarget(es, i, hit, 0)
        case None => HitPassShape(bs, es, hit, i + 1);
        case Some(k) =>
          HitPassShape(bs[i := bs[i].(active := false)], es[k := es[k].(active := false)], hit, i + 1);
      }
    }
  }

  /** Each hit costs exactly one live bullet and one live enemy: both live
      counts drop by the number of hits. */
  lemma {:induction false} HitPassCounts(bs: seq<Bullet>, es: seq<Enemy>, hit: (nat, nat) -> bool, i: nat)
    ensures |Survivors(bs, BulletLive)| == |Survivors(HitPass(bs, es, hit, i).bullets, BulletLive)| + |HitPass(bs, es, hit, i).hits|
    ensures |Survivors(es, EnemyLive)| == |Survivors(HitPass(bs, es, hit, i).enemies, EnemyLive)| + |HitPass(bs, es, hit, i).hits|
    decreases |bs| - i
  {
    if i < |bs| {
      if !bs[i].active {
        HitPassCounts(bs, es, hit, i + 1);
      } else {
        match FirstTarget(es, i, hit, 0)
        case None => HitPassCounts(bs, es, hit, i + 1);
        case Some(k) =>
          var bs', es' := bs[i := bs[i].(active := false)], es[k := es[k].(active := false)];
          var r := HitPass(bs', es', hit, i + 1);
          assert HitPass(bs, es, hit, i) == Volley(r.bullets, r.enemies, [Hit(i, k)] + r.hits);
          HitPassCounts(bs', es', hit, i + 1);
          SurvivorsKill(bs, i, bs[i].(active := false), BulletLive);
          SurvivorsKill(es, k, es[k].(active := false), EnemyLive);
      }
    }
  }

  /** Every hit pairs a bullet from i on with an enemy, both live before the
      pass and overlapping, and both dead after it. */
  lemma {:induction false} HitPassHits(bs: seq<Bullet>, es: seq<Enemy>, hit: (nat, nat) -> bool, i: nat)
    ensures |HitPass(bs, es, hit, i).bullets| == |bs| && |HitPass(bs, es, hit, i).enemies| == |es|
    ensures forall a :: 0 <= a < |HitPass(bs, es, hit, i).hits| ==>
      var h := HitPass(bs, es, hit, i).hits[a];
      i <= h.bullet < |bs| && h.enemy < |es| &&
      bs[h.bullet].active && es[h.enemy].active && hit(h.bullet, h.enemy) &&
      !HitPass(bs, es, hit, i).bullets[h.bullet].active && !HitPass(bs, es, hit, i).enemies[h.enemy].active
    decreases |bs| - i
  {
    HitPassShape(bs, es, hit, i);
    if i < |bs| {
      if !bs[i].active {
        HitPassHits(bs, es, hit, i + 1);
      } else {
        match FirstTarget(es, i, hit, 0)
        case None => HitPassHits(bs, es, hit, i + 1);
        case Some(k) =>
          var bs', es' := bs[i := bs[i].(active := false)], es[k := es[k].(active := false)];
          HitPassHits(bs', es', hit, i + 1);
          HitPassShape(bs', es', hit, i + 1);
          var r := HitPass(bs', es', hit, i + 1);
          assert HitPass(bs, es, hit, i) == Volley(r.bullets, r.enemies, [Hit(i, k)] + r.hits);
      }
    }
  }

  /** No bullet scores twice and no enemy dies twice: the bullets of the hits
      strictly increase and their enemies are pairwise distinct. */
  lemma {:induction false} HitPassHitsDistinct(bs: seq<Bullet>, es: seq<Enemy>, hit: (nat, nat) -> bool, i: nat)
    ensures forall a, b :: 0 <= a < b < |HitPass(bs, es, hit, i).hits| ==>
      HitPass(bs, es, hit, i).hits[a].bullet < HitPass(bs, es, hit, i).hits[b].bullet &&
      HitPass(bs, es, hit, i).hits[a].enemy != HitPass(bs, es, hit, i).hits[b].enemy
    decreases |bs| - i
  {
    if i < |bs| {
      if !bs[i].active {
        HitPassHitsDistinct(bs, es, hit, i + 1);
      } else {
        match FirstTarget(es, i, hit, 0)
        case None => HitPassHitsDistinct(bs, es, hit, i + 1);
        case Some(k) =>
          var bs', es' := bs[i := bs[i].(active := false)], es[k := es[k].(active := false)];
          HitPassHitsDistinct(bs', es', hit, i + 1);
          HitPassHits(bs', es', hit, i + 1);
          var r := HitPass(bs', es', hit, i + 1);
          assert HitPass(bs, es, hit, i) == Volley(r.bullets, r.enemies, [Hit(i, k)] + r.hits);
          assert forall a :: 0 <= a < |r.hits| ==> i < r.hits[a].bullet && r.hits[a].enemy != k;
      }
    }
  }

  /** After the pass no live bullet from i on overlaps a live enemy: the pass
      misses no hit. */
  lemma {:induction false} HitPassComplete(bs: seq<Bullet>, es: seq<Enemy>, hit: (nat, nat) -> bool, i: nat)
    ensures |HitPass(bs, es, hit, i).bullets| == |bs| && |HitPass(bs, es, hit, i).enemies| == |es|
    ensures forall b, e ::
      (i <= b < |bs| && 0 <= e < |es| &&
       HitPass(bs, es, hit, i).bullets[b].active && HitPass(bs, es, hit, i).enemies[e].active) ==> !hit(b, e)
    decreases |bs| - i
  {
    HitPassShape(bs, es, hit, i);
    if i < |bs| {
      if !bs[i].active {
        HitPassComplete(bs, es, hit, i + 1);
      } else {
        match FirstTarget(es, i, hit, 0)
        case None => HitPassComplete(bs, es, hit, i + 1);
        case Some(k) =>
          var bs', es' := bs[i := bs[i].(active := false)], es[k := es[k].(active := false)];
          HitPassComplete(bs', es', hit, i + 1);
          HitPassShape(bs', es', hit, i + 1);
      }
    }
  }
}
