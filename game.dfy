/** The game session: the state machine over the six screens, the three
    entity collections, the kill counters and the timers, updated by the main
    loop once per input event and once per frame. Window, input devices,
    textures, sounds and drawing stay outside: an input event arrives already
    classified, random draws and collision geometry arrive as parameters. */
module Session {
  import opened Entities
  import opened Collections
  import opened Vitals
  import opened Combat

  /** Kills that win the classic mode; also the most enemies a classic session
      ever puts on the field, counting the killed ones. */
  const TotalEnemiesClassic: int := 30
  const EnemySpawnDelay: real := 1.5
  const PowerupSpawnDelay: real := 7.0
  const TimeTrialDuration: real := 60.0
  const XpPerKill: int := 10
  /** XP for lasting out the time trial: five per second of its duration,
      converted to an integer by truncation. */
  const SurvivalXp: int := (TimeTrialDuration * 5.0).Floor

  datatype GameState =
    | MainMenu
    | PlayingClassic
    | PlayingTimeTrial
    | GameOver
    | Victory
    | TimeTrialResults
  {
    predicate Playing() { this == PlayingClassic || this == PlayingTimeTrial }
    predicate Ended() { this == GameOver || this == Victory || this == TimeTrialResults }
  }

  datatype MenuButton = ClassicButton | TimeTrialButton | ExitButton | NoButton

  /** One input event, as the loop sees it. A left click carries the menu
      button whose hover flag is set (the flag is refreshed once per menu
      frame, after the events, so it reflects the mouse cursor as of the last menu
      frame), the player's centre and the normalised direction from that
      centre to the mouse cursor (the aim of a shot). */
  datatype Event =
    | WindowClosed
    | LeftClick(over: MenuButton, origin: Vec, aim: Vec)
    | SpaceKey
    | OtherInput

  /** The random draws a frame may consume: an enemy's edge, its place along
      the edge, a 0..99 roll for its kind and a draw for its speed; a
      powerup's position and a 0/1 coin for its kind. */
  datatype Draws = Draws(edge: Edge, along: Unit, roll: int, speed: Unit, dropX: Unit, dropY: Unit, coin: int)

  /** The geometry of one frame: where each live enemy's pursuit takes it,
      which enemies and powerups overlap the player, which bullet overlaps
      which enemy (indices into the collections as the passes see them). */
  datatype World = World(pursuit: nat -> Vec, enemyTouches: nat -> bool, powerupTouches: nat -> bool, hit: (nat, nat) -> bool)

  // ------------------------------------------------------------ state machine

  /** A click on one of the two mode buttons of the main menu. */
  predicate StartsSession(s: GameState, e: Event) {
    s == MainMenu && e.LeftClick? && (e.over == ClassicButton || e.over == TimeTrialButton)
  }

  /** The event fires a bullet: a left click while playing, including the very
      click that has just started the session. */
  predicate FiresBullet(s: GameState, e: Event) {
    e.LeftClick? && (s.Playing() || StartsSession(s, e))
  }

  /** The screen after one event. The menu's mode buttons start a session,
      SPACE leaves every end screen for the menu, and nothing else an event
      does changes the screen (a session ends only at the end of a frame). */
  function AfterEvent(s: GameState, e: Event): (r: GameState)
    ensures s.Playing() ==> r == s
    ensures s.Ended() ==> (r == MainMenu <==> e.SpaceKey?) && (r != MainMenu ==> r == s)
    ensures s == MainMenu ==> (r == PlayingClassic <==> e.LeftClick? && e.over == ClassicButton)
    ensures s == MainMenu ==> (r == PlayingTimeTrial <==> e.LeftClick? && e.over == TimeTrialButton)
    ensures s == MainMenu ==> (r == MainMenu <==> !StartsSession(s, e))
  {
    var s1 :=
      if s == MainMenu && e.LeftClick? && e.over == ClassicButton then PlayingClassic
      else if s == MainMenu && e.LeftClick? && e.over == TimeTrialButton then PlayingTimeTrial
      else s;
    if s1.Ended() && e.SpaceKey? then MainMenu else s1
  }

  /** The screen after a sequence of events, handled in order. Events never
      lead to an end screen: one is reached only at the end of a frame. */
  function AfterEvents(s: GameState, events: seq<Event>): (r: GameState)
    ensures r.Ended() ==> r == s
  {
    if events == [] then s
    else AfterEvent(AfterEvents(s, events[..|events| - 1]), events[|events| - 1])
  }

  /** Once playing, no sequence of events leaves play: only a frame can end a
      session. */
  lemma {:induction false} EventsKeepPlaying(s: GameState, events: seq<Event>)
    requires s.Playing()
    ensures AfterEvents(s, events) == s
  {
    if events != [] {
      EventsKeepPlaying(s, events[..|events| - 1]);
    }
  }

  /** The screen a playing frame ends on, given the health, the classic kill
      count and the time-trial timer at its end. The trial's expiry is looked
      at first, but a dead player overrides it: GameOver comes first of all,
      then Victory, then the time trial's results. */
  function FrameEnd(s: GameState, health: int, kills: int, timer: real): (r: GameState)
    requires s.Playing()
    ensures r == GameOver <==> health <= 0
    ensures r == Victory <==> health > 0 && s == PlayingClassic && kills >= TotalEnemiesClassic
    ensures r == TimeTrialResults <==> health > 0 && s == PlayingTimeTrial && timer <= 0.0
    ensures r == s <==> health > 0 && (if s == PlayingClassic then kills < TotalEnemiesClassic else timer > 0.0)
  {
    var s1 := if s == PlayingTimeTrial && timer <= 0.0 then TimeTrialResults else s;
    if health <= 0 then GameOver
    else if s1 == PlayingClassic && kills >= TotalEnemiesClassic then Victory
    else s1
  }

  // ------------------------------------------------------------ spawning

  /** Whether the enemy spawner fires, given its accumulated timer: once the
      delay is reached, and in the classic mode only while the live enemies
      and the kills so far stay below the total. */
  predicate EnemyDue(s: GameState, timer: real, live: int, killed: int) {
    if s == PlayingClassic then timer >= EnemySpawnDelay && live + killed < TotalEnemiesClassic
    else timer >= EnemySpawnDelay
  }

  /** Every bullet one frame further along its path: none is added or
      removed, none changes velocity and none comes back to life. */
  function Flown(bs: seq<Bullet>, dt: real): (r: seq<Bullet>)
    ensures |r| == |bs|
    ensures forall k :: 0 <= k < |r| ==> r[k].vel == bs[k].vel && (r[k].active ==> bs[k].active)
  {
    seq(|bs|, k requires 0 <= k < |bs| => Advance(bs[k], dt))
  }

  /** The enemy a spawn adds, from the frame's draws. */
  function DrawnEnemy(d: Draws): (e: Enemy)
    ensures e.active && WellFormed(e) && InField(e.pos)
    ensures e.pos.x == 0.0 || e.pos.x == FieldWidth || e.pos.y == 0.0 || e.pos.y == FieldHeight
    ensures e.kind == Type1 <==> d.roll < 60
  {
    Spawned(EdgePoint(d.edge, d.along), KindOf(d.roll), d.speed)
  }

  /** One classic frame keeps live enemies plus kills within the total: with
      `es` the enemies after spawning (within the total), the contact pass
      only removes, and every kill of the bullet pass moves one enemy from
      live to killed. */
  lemma {:induction false} KillTotalKept(es: seq<Enemy>, killed: int, bs: seq<Bullet>, world: World)
    requires |es| + killed <= TotalEnemiesClassic
    ensures |Survivors(HitPass(bs, Contacts(es, world.pursuit, world.enemyTouches), world.hit, 0).enemies, EnemyLive)|
            + killed + |HitPass(bs, Contacts(es, world.pursuit, world.enemyTouches), world.hit, 0).hits|
            <= TotalEnemiesClassic
  {
    var cs := Contacts(es, world.pursuit, world.enemyTouches);
    ContactsOnlyKill(es, world.pursuit, world.enemyTouches);
    HitPassCounts(bs, cs, world.hit, 0);
  }

  /** Neither collision pass changes an enemy's kind or damage, so a
      well-formed collection stays well formed. */
  lemma PassesKeepWellFormed(es: seq<Enemy>, to: nat -> Vec, touches: nat -> bool, bs: seq<Bullet>, hit: (nat, nat) -> bool)
    requires forall e :: e in es ==> WellFormed(e)
    ensures forall e :: e in HitPass(bs, Contacts(es, to, touches), hit, 0).enemies ==> WellFormed(e)
  {
    var cs := Contacts(es, to, touches);
    ContactsOnlyKill(es, to, touches);
    HitPassShape(bs, cs, hit, 0);
    var r := HitPass(bs, cs, hit, 0).enemies;
    forall e | e in r
      ensures WellFormed(e)
    {
      var j :| 0 <= j < |r| && r[j] == e;
      assert es[j] in es;
    }
  }

  // ------------------------------------------------------------ the session

  class Game {
    var state: GameState
    const player: Player
    var bullets: seq<Bullet>
    var enemies: seq<Enemy>
    var powerups: seq<Powerup>
    var enemiesKilled: int
    var enemySpawnTimer: real
    var powerupSpawnTimer: real
    var timeTrialTimer: real
    var timeTrialKills: int
    var xpEarned: int
    var windowOpen: bool

    /** Between events and frames: the player is valid, the counters are
        not negative, a classic session holds live enemies plus kills within
        the total, and every enemy and powerup is live and well formed
        (bullets, compacted before the collision passes, may still hold
        the dead ones of the last frame). */
    ghost predicate Valid()
      reads this, player
    {
      player.Valid() &&
      0 <= enemiesKilled && 0 <= timeTrialKills &&
      (state == PlayingClassic ==> |enemies| + enemiesKilled <= TotalEnemiesClassic) &&
      (forall e :: e in enemies ==> e.active && WellFormed(e)) &&
      (forall p :: p in powerups ==> p.active)
    }

    constructor ()
      ensures Valid() && state == MainMenu && windowOpen
      ensures bullets == [] && enemies == [] && powerups == []
      ensures enemiesKilled == 0 && timeTrialKills == 0 && xpEarned == 0
      ensures enemySpawnTimer == 0.0 && powerupSpawnTimer == 0.0 && timeTrialTimer == TimeTrialDuration
      ensures fresh(player)
    {
      state := MainMenu;
      player := new Player();
      bullets, enemies, powerups := [], [], [];
      enemiesKilled := 0;
      enemySpawnTimer, powerupSpawnTimer := 0.0, 0.0;
      timeTrialTimer := TimeTrialDuration;
      timeTrialKills, xpEarned := 0, 0;
      windowOpen := true;
    }

    /** Start a session in `mode` from the menu: reset the player, empty the
        three collections, zero the mode's counters and both spawn timers
        (the time trial also refills its clock and clears its XP). */
    method Start(mode: GameState)
      requires Valid() && mode.Playing()
      modifies this`state, this`bullets, this`enemies, this`powerups, this`enemiesKilled,
               this`enemySpawnTimer, this`powerupSpawnTimer, this`timeTrialTimer,
               this`timeTrialKills, this`xpEarned, player
      ensures Valid() && state == mode
      ensures bullets == [] && enemies == [] && powerups == []
      ensures enemySpawnTimer == 0.0 && powerupSpawnTimer == 0.0
      ensures player.health == MaxHealth && player.speed == BaseSpeed
      ensures !player.hasSpeedBoost && player.speedBoostTimer == 0.0
      ensures enemiesKilled == if mode == PlayingClassic then 0 else old(enemiesKilled)
      ensures (timeTrialTimer, timeTrialKills, xpEarned)
              == if mode == PlayingTimeTrial then (TimeTrialDuration, 0, 0)
                 else (old(timeTrialTimer), old(timeTrialKills), old(xpEarned))
    {
      state := mode;
      player.Reset();
      bullets, enemies, powerups := [], [], [];
      if mode == PlayingClassic {
        enemiesKilled := 0;
      } else {
        timeTrialTimer := TimeTrialDuration;
        timeTrialKills := 0;
        xpEarned := 0;
      }
      enemySpawnTimer := 0.0;
      powerupSpawnTimer := 0.0;
    }

    /** Handle one input event: the menu's buttons, a shot while playing,
        SPACE on an end screen. */
    method HandleEvent(e: Event)
      requires Valid()
      modifies this, player
      ensures Valid()
      ensures state == AfterEvent(old(state), e)
      ensures windowOpen <==> old(windowOpen) && !e.WindowClosed?
                               && !(old(state) == MainMenu && e.LeftClick? && e.over == ExitButton)
      ensures bullets == (if StartsSession(old(state), e) then [] else old(bullets))
                         + (if FiresBullet(old(state), e) then [Fire(e.origin, e.aim)] else [])
      ensures enemies == (if StartsSession(old(state), e) then [] else old(enemies))
      ensures powerups == (if StartsSession(old(state), e) then [] else old(powerups))
      ensures StartsSession(old(state), e) ==>
        enemySpawnTimer == 0.0 && powerupSpawnTimer == 0.0 &&
        player.health == MaxHealth && player.speed == BaseSpeed &&
        !player.hasSpeedBoost && player.speedBoostTimer == 0.0
      ensures !StartsSession(old(state), e) ==>
        enemySpawnTimer == old(enemySpawnTimer) && powerupSpawnTimer == old(powerupSpawnTimer) && unchanged(player)
      ensures enemiesKilled == if state == PlayingClassic && old(state) == MainMenu then 0 else old(enemiesKilled)
      ensures (timeTrialTimer, timeTrialKills, xpEarned)
              == if state == PlayingTimeTrial && old(state) == MainMenu then (TimeTrialDuration, 0, 0)
                 else (old(timeTrialTimer), old(timeTrialKills), old(xpEarned))
    {
      if e.WindowClosed? {
        windowOpen := false;
      }
      if state == MainMenu {
        if e.LeftClick? && e.over == ClassicButton {
          Start(PlayingClassic);
        } else if e.LeftClick? && e.over == TimeTrialButton {
          Start(PlayingTimeTrial);
        } else if e.LeftClick? && e.over == ExitButton {
          windowOpen := false;
        }
      }
      if state == PlayingClassic || state == PlayingTimeTrial {
        if e.LeftClick? {
          bullets := bullets + [Fire(e.origin, e.aim)];
        }
      }
      if state == GameOver || state == Victory || state == TimeTrialResults {
        if e.SpaceKey? {
          state := MainMenu;
        }
      }
    }

    /** Move every bullet one frame along its path. */
    method AdvanceBullets(dt: real)
      modifies this`bullets
      ensures |bullets| == |old(bullets)|
      ensures forall k :: 0 <= k < |bullets| ==> bullets[k] == Advance(old(bullets)[k], dt)
      ensures bullets == Flown(old(bullets), dt)
    {
      var k := 0;
      while k < |bullets|
        invariant 0 <= k <= |bullets| == |old(bullets)|
        invariant forall j :: 0 <= j < k ==> bullets[j] == Advance(old(bullets)[j], dt)
        invariant forall j :: k <= j < |bullets| ==> bullets[j] == old(bullets)[j]
      {
        bullets := bullets[k := Advance(bullets[k], dt)];
        k := k + 1;
      }
    }

    /** Advance the enemy spawner: add one enemy from the draws when it is due,
        and restart its timer from zero. */
    method SpawnEnemy(dt: real, d: Draws)
      modifies this`enemies, this`enemySpawnTimer
      ensures EnemyDue(state, old(enemySpawnTimer) + dt, |old(enemies)|, enemiesKilled) ==>
        enemySpawnTimer == 0.0 && enemies == old(enemies) + [DrawnEnemy(d)]
      ensures !EnemyDue(state, old(enemySpawnTimer) + dt, |old(enemies)|, enemiesKilled) ==>
        enemySpawnTimer == old(enemySpawnTimer) + dt && enemies == old(enemies)
    {
      enemySpawnTimer := enemySpawnTimer + dt;
      var shouldSpawn := false;
      if state == PlayingClassic {
        shouldSpawn := enemySpawnTimer >= EnemySpawnDelay && |enemies| + enemiesKilled < TotalEnemiesClassic;
      } else {
        shouldSpawn := enemySpawnTimer >= EnemySpawnDelay;
      }
      if shouldSpawn {
        enemySpawnTimer := 0.0;
        enemies := enemies + [DrawnEnemy(d)];
      }
    }

    /** Advance the powerup spawner, in either mode. */
    method SpawnPowerup(dt: real, d: Draws)
      modifies this`powerups, this`powerupSpawnTimer
      ensures old(powerupSpawnTimer) + dt >= PowerupSpawnDelay ==>
        powerupSpawnTimer == 0.0 && powerups == old(powerups) + [Dropped(d.dropX, d.dropY, d.coin)]
      ensures old(powerupSpawnTimer) + dt < PowerupSpawnDelay ==>
        powerupSpawnTimer == old(powerupSpawnTimer) + dt && powerups == old(powerups)
    {
      powerupSpawnTimer := powerupSpawnTimer + dt;
      if powerupSpawnTimer >= PowerupSpawnDelay {
        powerupSpawnTimer := 0.0;
        powerups := powerups + [Dropped(d.dropX, d.dropY, d.coin)];
      }
    }

    /** Move each enemy and let every live one that touches the player deal
        its damage once and be consumed. */
    method ContactEnemies(pursuit: nat -> Vec, touches: nat -> bool)
      requires player.Valid()
      requires forall e :: e in enemies ==> WellFormed(e)
      modifies this`enemies, player
      ensures enemies == Contacts(old(enemies), pursuit, touches)
      ensures player.health == ContactHealth(old(player.health), old(enemies), touches, |old(enemies)|)
      ensures player.Valid()
      ensures player.speed == old(player.speed) && player.hasSpeedBoost == old(player.hasSpeedBoost)
      ensures player.speedBoostTimer == old(player.speedBoostTimer)
    {
      ghost var es := enemies;
      var k := 0;
      while k < |enemies|
        invariant 0 <= k <= |enemies| == |es|
        invariant forall j :: 0 <= j < k ==> enemies[j] == Consumed(Pursued(es[j], pursuit(j)), touches(j))
        invariant forall j :: k <= j < |enemies| ==> enemies[j] == es[j]
        invariant player.health == ContactHealth(old(player.health), es, touches, k)
        invariant player.Valid()
        invariant player.speed == old(player.speed) && player.hasSpeedBoost == old(player.hasSpeedBoost)
        invariant player.speedBoostTimer == old(player.speedBoostTimer)
      {
        assert es[k] in es;
        ContactEnemy(k, pursuit(k), touches(k));
        k := k + 1;
      }
    }

    /** Enemy k's frame: it moves to where its pursuit takes it, and if it is
        live and touches the player it deals its damage and is consumed. */
    method ContactEnemy(k: nat, to: Vec, touching: bool)
      requires k < |enemies| && player.Valid() && enemies[k].damage >= 0
      modifies this`enemies, player
      ensures enemies == old(enemies)[k := Consumed(Pursued(old(enemies)[k], to), touching)]
      ensures player.health ==
        if old(enemies)[k].active && touching then AfterDamage(old(player.health), old(enemies)[k].damage)
        else old(player.health)
      ensures player.Valid()
      ensures player.speed == old(player.speed) && player.hasSpeedBoost == old(player.hasSpeedBoost)
      ensures player.speedBoostTimer == old(player.speedBoostTimer)
    {
      enemies := enemies[k := Pursued(enemies[k], to)];
      if touching && enemies[k].active {
        player.TakeDamage(enemies[k].damage);
        enemies := enemies[k := enemies[k].(active := false)];
      }
    }

    /** Age each powerup and let every live one that touches the player take
        effect (a heal only below full health, a speed boost always) and be
        consumed, whatever its effect did. */
    method CollectPowerups(dt: real, touches: nat -> bool)
      requires player.Valid()
      modifies this`powerups, player
      ensures powerups == Pickups(old(powerups), dt, touches)
      ensures player.health == PickupHealth(old(player.health), old(powerups), dt, touches, |old(powerups)|)
      ensures player.Valid()
      ensures SpeedGrabs(old(powerups), dt, touches, |old(powerups)|) > 0 ==>
        player.hasSpeedBoost && player.speed == BaseSpeed * BoostFactor && player.speedBoostTimer == BoostDuration
      ensures SpeedGrabs(old(powerups), dt, touches, |old(powerups)|) == 0 ==>
        player.hasSpeedBoost == old(player.hasSpeedBoost) && player.speed == old(player.speed) &&
        player.speedBoostTimer == old(player.speedBoostTimer)
    {
      ghost var ps := powerups;
      var k := 0;
      while k < |powerups|
        invariant 0 <= k <= |powerups| == |ps|
        invariant forall j :: 0 <= j < k ==> powerups[j] == Collected(ps[j], dt, touches(j))
        invariant forall j :: k <= j < |powerups| ==> powerups[j] == ps[j]
        invariant player.health == PickupHealth(old(player.health), ps, dt, touches, k)
        invariant player.Valid()
        invariant SpeedGrabs(ps, dt, touches, k) > 0 ==>
          player.hasSpeedBoost && player.speed == BaseSpeed * BoostFactor && player.speedBoostTimer == BoostDuration
        invariant SpeedGrabs(ps, dt, touches, k) == 0 ==>
          player.hasSpeedBoost == old(player.hasSpeedBoost) && player.speed == old(player.speed) &&
          player.speedBoostTimer == old(player.speedBoostTimer)
      {
        CollectPowerup(k, dt, touches(k));
        k := k + 1;
      }
    }

    /** Powerup k's frame: it ages, and if it is still live and touches the
        player it takes effect (a heal only below full health, a speed boost
        always) and is consumed. */
    method CollectPowerup(k: nat, dt: real, touching: bool)
      requires k < |powerups| && player.Valid()
      modifies this`powerups, player
      ensures powerups == old(powerups)[k := Collected(old(powerups)[k], dt, touching)]
      ensures player.Valid()
      ensures player.health ==
        if Grabbed(old(powerups)[k], dt, touching) && old(powerups)[k].kind == HealthBoost && old(player.health) < MaxHealth
        then AfterHeal(old(player.health), HealAmount, MaxHealth) else old(player.health)
      ensures Grabbed(old(powerups)[k], dt, touching) && old(powerups)[k].kind == SpeedBoost ==>
        player.hasSpeedBoost && player.speed == BaseSpeed * BoostFactor && player.speedBoostTimer == BoostDuration
      ensures !(Grabbed(old(powerups)[k], dt, touching) && old(powerups)[k].kind == SpeedBoost) ==>
        player.hasSpeedBoost == old(player.hasSpeedBoost) && player.speed == old(player.speed) &&
        player.speedBoostTimer == old(player.speedBoostTimer)
    {
      powerups := powerups[k := Age(powerups[k], dt)];
      if touching && powerups[k].active {
        if powerups[k].kind == HealthBoost && player.health < player.maxHealth {
          player.Heal(20);
        } else if powerups[k].kind == SpeedBoost {
          player.ApplySpeedBoost();
        }
        powerups := powerups[k := powerups[k].(active := false)];
      }
    }

    /** Every live bullet against every live enemy: the first overlap kills
        both and counts one kill on the mode's counter. */
    method ResolveHits(hit: (nat, nat) -> bool)
      modifies this`bullets, this`enemies, this`enemiesKilled, this`timeTrialKills
      ensures bullets == HitPass(old(bullets), old(enemies), hit, 0).bullets
      ensures enemies == HitPass(old(bullets), old(enemies), hit, 0).enemies
      ensures state == PlayingClassic ==>
        enemiesKilled == old(enemiesKilled) + |HitPass(old(bullets), old(enemies), hit, 0).hits| &&
        timeTrialKills == old(timeTrialKills)
      ensures state != PlayingClassic ==>
        timeTrialKills == old(timeTrialKills) + |HitPass(old(bullets), old(enemies), hit, 0).hits| &&
        enemiesKilled == old(enemiesKilled)
    {
      ghost var all := HitPass(bullets, enemies, hit, 0);
      ghost var kills := 0;
      var i := 0;
      while i < |bullets|
        invariant 0 <= i <= |bullets| == |old(bullets)|
        invariant |enemies| == |old(enemies)|
        invariant HitPass(bullets, enemies, hit, i).bullets == all.bullets
        invariant HitPass(bullets, enemies, hit, i).enemies == all.enemies
        invariant kills + |HitPass(bullets, enemies, hit, i).hits| == |all.hits|
        invariant state == PlayingClassic ==>
          enemiesKilled == old(enemiesKilled) + kills && timeTrialKills == old(timeTrialKills)
        invariant state != PlayingClassic ==>
          timeTrialKills == old(timeTrialKills) + kills && enemiesKilled == old(enemiesKilled)
      {
        ghost var bs, es := bullets, enemies;
        ResolveBullet(i, hit);
        if bs[i].active && FirstTarget(es, i, hit, 0).Some? {
          kills := kills + 1;
        }
        i := i + 1;
      }
    }

    /** Bullet i against every enemy, in order: a live bullet destroys the
        first live enemy it overlaps, both die, and the mode's kill counter
        grows by one; otherwise nothing changes. */
    method ResolveBullet(i: nat, hit: (nat, nat) -> bool)
      requires i < |bullets|
      modifies this`bullets, this`enemies, this`enemiesKilled, this`timeTrialKills
      ensures var t := FirstTarget(old(enemies), i, hit, 0);
        if old(bullets)[i].active && t.Some? then
          bullets == old(bullets)[i := old(bullets)[i].(active := false)] &&
          enemies == old(enemies)[t.value := old(enemies)[t.value].(active := false)] &&
          (state == PlayingClassic ==> enemiesKilled == old(enemiesKilled) + 1 && timeTrialKills == old(timeTrialKills)) &&
          (state != PlayingClassic ==> timeTrialKills == old(timeTrialKills) + 1 && enemiesKilled == old(enemiesKilled))
        else
          bullets == old(bullets) && enemies == old(enemies) &&
          enemiesKilled == old(enemiesKilled) && timeTrialKills == old(timeTrialKills)
    {
      ghost var bs, es := bullets, enemies;
      ghost var target := FirstTarget(es, i, hit, 0);
      ghost var found := bs[i].active && target.Some?;
      var j := 0;
      while j < |enemies|
        invariant 0 <= j <= |enemies| == |es|
        invariant |bullets| == |bs|
        invariant bs[i].active && (target.None? || j <= target.value) ==> FirstTarget(es, i, hit, j) == target
        invariant if found && target.value < j
          then bullets == bs[i := bs[i].(active := false)] && enemies == es[target.value := es[target.value].(active := false)]
          else bullets == bs && enemies == es
        invariant state == PlayingClassic ==>
          enemiesKilled == old(enemiesKilled) + (if found && target.value < j then 1 else 0) &&
          timeTrialKills == old(timeTrialKills)
        invariant state != PlayingClassic ==>
          timeTrialKills == old(timeTrialKills) + (if found && target.value < j then 1 else 0) &&
          enemiesKilled == old(enemiesKilled)
      {
        if bullets[i].active && enemies[j].active && hit(i, j) {
          bullets := bullets[i := bullets[i].(active := false)];
          enemies := enemies[j := enemies[j].(active := false)];
          if state == PlayingClassic {
            enemiesKilled := enemiesKilled + 1;
          } else {
            timeTrialKills := timeTrialKills + 1;
          }
        }
        j := j + 1;
      }
    }

    /** The end of a playing frame: run the trial's clock down (computing the
        XP when it expires), then GameOver for a dead player, else Victory for
        a classic session with all its kills. */
    method EndFrame(dt: real)
      requires Valid() && state.Playing()
      modifies this`state, this`timeTrialTimer, this`xpEarned
      ensures Valid()
      ensures timeTrialTimer == if old(state) == PlayingTimeTrial then old(timeTrialTimer) - dt else old(timeTrialTimer)
      ensures xpEarned == if old(state) == PlayingTimeTrial && timeTrialTimer <= 0.0
                          then timeTrialKills * 10 + 300 else old(xpEarned)
      ensures state == FrameEnd(old(state), player.health, enemiesKilled, timeTrialTimer)
    {
      if state == PlayingTimeTrial {
        timeTrialTimer := timeTrialTimer - dt;
        if timeTrialTimer <= 0.0 {
          xpEarned := timeTrialKills * XpPerKill + SurvivalXp;
          state := TimeTrialResults;
        }
      }
      if player.health <= 0 {
        state := GameOver;
      } else if state == PlayingClassic && enemiesKilled >= TotalEnemiesClassic {
        state := Victory;
      }
    }
    /** One playing frame, in the loop's order: the boost clock, the bullets
        (moved, then compacted), the two spawners, enemy contact, powerup
        pickup, bullet hits, compaction of enemies and powerups, and the end
        of frame. The player's movement, clamping and aim are geometry and
        are not part of this model. */
    method PlayFrame(dt: real, d: Draws, world: World)
      requires Valid() && state.Playing()
      modifies this`state, this`bullets, this`enemies, this`powerups, this`enemiesKilled, this`timeTrialKills
      modifies this`enemySpawnTimer, this`powerupSpawnTimer, this`timeTrialTimer, this`xpEarned, player
      ensures Valid()
      ensures state == FrameEnd(old(state), player.health, enemiesKilled, timeTrialTimer)
      ensures old(state) == PlayingClassic ==>
        enemiesKilled >= old(enemiesKilled) && timeTrialKills == old(timeTrialKills) &&
        timeTrialTimer == old(timeTrialTimer) && xpEarned == old(xpEarned)
      ensures old(state) == PlayingTimeTrial ==>
        timeTrialKills >= old(timeTrialKills) && enemiesKilled == old(enemiesKilled) &&
        timeTrialTimer == old(timeTrialTimer) - dt
      ensures state == TimeTrialResults ==> xpEarned == timeTrialKills * 10 + 300
      ensures xpEarned == if old(state) == PlayingTimeTrial && timeTrialTimer <= 0.0
                          then timeTrialKills * 10 + 300 else old(xpEarned)
      ensures windowOpen == old(windowOpen)
    {
      Prepare(dt, d);
      assert state == old(state) && enemiesKilled == old(enemiesKilled) && timeTrialKills == old(timeTrialKills);
      assert timeTrialTimer == old(timeTrialTimer) && xpEarned == old(xpEarned);
      assert player.Valid() && 0 <= enemiesKilled && 0 <= timeTrialKills && state.Playing();
      assert forall e :: e in enemies ==> WellFormed(e);
      assert state == PlayingClassic ==> |enemies| + enemiesKilled <= TotalEnemiesClassic;
      Settle(dt, world);
    }

    /** The rest of a playing frame: the collision passes with their
        compaction, then the end of frame. */
    method Settle(dt: real, world: World)
      requires player.Valid() && 0 <= enemiesKilled && 0 <= timeTrialKills && state.Playing()
      requires forall e :: e in enemies ==> WellFormed(e)
      requires state == PlayingClassic ==> |enemies| + enemiesKilled <= TotalEnemiesClassic
      modifies this`state, this`bullets, this`enemies, this`powerups, this`enemiesKilled, this`timeTrialKills
      modifies this`timeTrialTimer, this`xpEarned, player
      ensures Valid()
      ensures state == FrameEnd(old(state), player.health, enemiesKilled, timeTrialTimer)
      ensures old(state) == PlayingClassic ==>
        enemiesKilled >= old(enemiesKilled) && timeTrialKills == old(timeTrialKills) &&
        timeTrialTimer == old(timeTrialTimer) && xpEarned == old(xpEarned)
      ensures old(state) == PlayingTimeTrial ==>
        timeTrialKills >= old(timeTrialKills) && enemiesKilled == old(enemiesKilled) &&
        timeTrialTimer == old(timeTrialTimer) - dt
      ensures state == TimeTrialResults ==> xpEarned == timeTrialKills * 10 + 300
      ensures xpEarned == if old(state) == PlayingTimeTrial && timeTrialTimer <= 0.0
                          then timeTrialKills * 10 + 300 else old(xpEarned)
      ensures var v := HitPass(old(bullets), Contacts(old(enemies), world.pursuit, world.enemyTouches), world.hit, 0);
        bullets == v.bullets && enemies == Survivors(v.enemies, EnemyLive) &&
        (old(state) == PlayingClassic ==> enemiesKilled == old(enemiesKilled) + |v.hits|) &&
        (old(state) == PlayingTimeTrial ==> timeTrialKills == old(timeTrialKills) + |v.hits|)
      ensures powerups == Survivors(Pickups(old(powerups), dt, world.powerupTouches), PowerupLive)
      ensures player.health == PickupHealth(ContactHealth(old(player.health), old(enemies), world.enemyTouches, |old(enemies)|),
                                            old(powerups), dt, world.powerupTouches, |old(powerups)|)
      ensures SpeedGrabs(old(powerups), dt, world.powerupTouches, |old(powerups)|) > 0 ==>
        player.hasSpeedBoost && player.speed == BaseSpeed * BoostFactor && player.speedBoostTimer == BoostDuration
      ensures SpeedGrabs(old(powerups), dt, world.powerupTouches, |old(powerups)|) == 0 ==>
        player.hasSpeedBoost == old(player.hasSpeedBoost) && player.speed == old(player.speed) &&
        player.speedBoostTimer == old(player.speedBoostTimer)
    {
      Collide(dt, world);
      EndFrame(dt);
    }

    /** The part of a playing frame before the collision passes: the boost
        clock, the bullets (moved, then compacted, so only live ones are left)
        and the two spawners. The kill counters and the session's state are
        untouched, so the classic cap still holds. */
    method Prepare(dt: real, d: Draws)
      requires Valid() && state.Playing()
      modifies this`bullets, this`enemies, this`powerups, this`enemySpawnTimer, this`powerupSpawnTimer, player
      ensures player.Valid() && player.health == old(player.health)
      ensures player.speedBoostTimer == if old(player.hasSpeedBoost) then old(player.speedBoostTimer) - dt
                                        else old(player.speedBoostTimer)
      ensures player.hasSpeedBoost <==> old(player.hasSpeedBoost) && player.speedBoostTimer > 0.0
      ensures player.speed == if old(player.hasSpeedBoost) && !player.hasSpeedBoost then BaseSpeed else old(player.speed)
      ensures bullets == Survivors(Flown(old(bullets), dt), BulletLive)
      ensures forall b :: b in bullets ==> b.active
      ensures EnemyDue(state, old(enemySpawnTimer) + dt, |old(enemies)|, enemiesKilled) ==>
        enemySpawnTimer == 0.0 && enemies == old(enemies) + [DrawnEnemy(d)]
      ensures !EnemyDue(state, old(enemySpawnTimer) + dt, |old(enemies)|, enemiesKilled) ==>
        enemySpawnTimer == old(enemySpawnTimer) + dt && enemies == old(enemies)
      ensures old(powerupSpawnTimer) + dt >= PowerupSpawnDelay ==>
        powerupSpawnTimer == 0.0 && powerups == old(powerups) + [Dropped(d.dropX, d.dropY, d.coin)]
      ensures old(powerupSpawnTimer) + dt < PowerupSpawnDelay ==>
        powerupSpawnTimer == old(powerupSpawnTimer) + dt && powerups == old(powerups)
      ensures |old(enemies)| <= |enemies| <= |old(enemies)| + 1 && enemies[..|old(enemies)|] == old(enemies)
      ensures forall e :: e in enemies ==> e.active && WellFormed(e)
      ensures state == PlayingClassic ==> |enemies| + enemiesKilled <= TotalEnemiesClassic
      ensures |old(powerups)| <= |powerups| <= |old(powerups)| + 1 && powerups[..|old(powerups)|] == old(powerups)
    {
      player.Update(dt);
      AdvanceBullets(dt);
      bullets := Compact(bullets, BulletLive);
      SpawnEnemy(dt, d);
      SpawnPowerup(dt, d);
    }

    /** The collision passes of a frame and the compaction that follows them:
        enemy contact, powerup pickup, bullet hits, then the dead enemies and
        powerups are dropped (dead bullets stay until the next frame). */
    method Collide(dt: real, world: World)
      requires player.Valid() && 0 <= enemiesKilled && 0 <= timeTrialKills
      requires forall e :: e in enemies ==> WellFormed(e)
      requires state == PlayingClassic ==> |enemies| + enemiesKilled <= TotalEnemiesClassic
      modifies this`bullets, this`enemies, this`powerups, this`enemiesKilled, this`timeTrialKills, player
      ensures Valid()
      ensures state == PlayingClassic ==> enemiesKilled >= old(enemiesKilled) && timeTrialKills == old(timeTrialKills)
      ensures state != PlayingClassic ==> timeTrialKills >= old(timeTrialKills) && enemiesKilled == old(enemiesKilled)
      ensures var v := HitPass(old(bullets), Contacts(old(enemies), world.pursuit, world.enemyTouches), world.hit, 0);
        bullets == v.bullets && enemies == Survivors(v.enemies, EnemyLive) &&
        (state == PlayingClassic ==>
           enemiesKilled == old(enemiesKilled) + |v.hits| && timeTrialKills == old(timeTrialKills)) &&
        (state != PlayingClassic ==>
           timeTrialKills == old(timeTrialKills) + |v.hits| && enemiesKilled == old(enemiesKilled))
      ensures powerups == Survivors(Pickups(old(powerups), dt, world.powerupTouches), PowerupLive)
      ensures player.health == PickupHealth(ContactHealth(old(player.health), old(enemies), world.enemyTouches, |old(enemies)|),
                                            old(powerups), dt, world.powerupTouches, |old(powerups)|)
      ensures SpeedGrabs(old(powerups), dt, world.powerupTouches, |old(powerups)|) > 0 ==>
        player.hasSpeedBoost && player.speed == BaseSpeed * BoostFactor && player.speedBoostTimer == BoostDuration
      ensures SpeedGrabs(old(powerups), dt, world.powerupTouches, |old(powerups)|) == 0 ==>
        player.hasSpeedBoost == old(player.hasSpeedBoost) && player.speed == old(player.speed) &&
        player.speedBoostTimer == old(player.speedBoostTimer)
    {
      Passes(dt, world);
      enemies := Compact(enemies, EnemyLive);
      powerups := Compact(powerups, PowerupLive);
    }

    /** The three collision passes in order, before any compaction: enemy
        contact, powerup pickup, bullet hits. Enemies stay well formed, and a
        classic session's surviving enemies plus its kills stay within the
        total. */
    method Passes(dt: real, world: World)
      requires player.Valid() && 0 <= enemiesKilled && 0 <= timeTrialKills
      requires forall e :: e in enemies ==> WellFormed(e)
      requires state == PlayingClassic ==> |enemies| + enemiesKilled <= TotalEnemiesClassic
      modifies this`bullets, this`enemies, this`powerups, this`enemiesKilled, this`timeTrialKills, player
      ensures player.Valid() && 0 <= enemiesKilled && 0 <= timeTrialKills
      ensures forall e :: e in enemies ==> WellFormed(e)
      ensures state == PlayingClassic ==> |Survivors(enemies, EnemyLive)| + enemiesKilled <= TotalEnemiesClassic
      ensures var v := HitPass(old(bullets), Contacts(old(enemies), world.pursuit, world.enemyTouches), world.hit, 0);
        bullets == v.bullets && enemies == v.enemies &&
        (state == PlayingClassic ==>
           enemiesKilled == old(enemiesKilled) + |v.hits| && timeTrialKills == old(timeTrialKills)) &&
        (state != PlayingClassic ==>
           timeTrialKills == old(timeTrialKills) + |v.hits| && enemiesKilled == old(enemiesKilled))
      ensures powerups == Pickups(old(powerups), dt, world.powerupTouches)
      ensures player.health == PickupHealth(ContactHealth(old(player.health), old(enemies), world.enemyTouches, |old(enemies)|),
                                            old(powerups), dt, world.powerupTouches, |old(powerups)|)
      ensures SpeedGrabs(old(powerups), dt, world.powerupTouches, |old(powerups)|) > 0 ==>
        player.hasSpeedBoost && player.speed == BaseSpeed * BoostFactor && player.speedBoostTimer == BoostDuration
      ensures SpeedGrabs(old(powerups), dt, world.powerupTouches, |old(powerups)|) == 0 ==>
        player.hasSpeedBoost == old(player.hasSpeedBoost) && player.speed == old(player.speed) &&
        player.speedBoostTimer == old(player.speedBoostTimer)
    {
      ghost var spawned, shots, killedBefore := enemies, bullets, enemiesKilled;
      ContactEnemies(world.pursuit, world.enemyTouches);
      CollectPowerups(dt, world.powerupTouches);
      ResolveHits(world.hit);
      PassesKeepWellFormed(spawned, world.pursuit, world.enemyTouches, shots, world.hit);
      if state == PlayingClassic {
        KillTotalKept(spawned, killedBefore, shots, world);
      }
    }

    /** One iteration of the main loop: every pending event in order, then a
        frame if a session is being played. (The menu's hover highlighting
        is presentation and is not modelled.) */
    method Tick(dt: real, events: seq<Event>, d: Draws, world: World)
      requires Valid()
      modifies this, player
      ensures Valid()
      ensures !AfterEvents(old(state), events).Playing() ==> state == AfterEvents(old(state), events)
      ensures AfterEvents(old(state), events).Playing() ==>
        state == FrameEnd(AfterEvents(old(state), events), player.health, enemiesKilled, timeTrialTimer)
    {
      var i := 0;
      while i < |events|
        invariant 0 <= i <= |events|
        invariant Valid()
        invariant state == AfterEvents(old(state), events[..i])
      {
        assert events[..i + 1][..i] == events[..i];
        HandleEvent(events[i]);
        i := i + 1;
      }
      assert events[..|events|] == events;
      if state == PlayingClassic || state == PlayingTimeTrial {
        PlayFrame(dt, d, world);
      }
    }
  }
}
