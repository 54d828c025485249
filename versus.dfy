/**
 * Versus mode: two machines each run one player and exchange hp values,
 * positions and attack launches as short text datagrams. Each side shows
 * the other's position mirrored through the origin.
 */
module Versus {
  import opened Wrappers
  import opened Geometry
  import opened Catalog = Game
  import opened Wire
  import Entity

  const PLAYER_HP: int := 50
  const MY_SPEED: real := 300.0
  const INITIAL_OPPONENT_POSITION: Vec2 := Vec2(0.0, 350.0)

  /** Receive-buffer sizes of the info, attack and position channels. */
  const INFO_BUFFER: nat := 6
  const ATTACK_BUFFER: nat := 9
  const POSITION_BUFFER: nat := 21

  /** One side's hp. */
  datatype Player = Player(hp: int)
  {
    static function Default(): (p: Player)
      ensures p.hp == PLAYER_HP
    {
      Player(PLAYER_HP)
    }

    function Damage(power: int): (p: Player)
      ensures hp - p.hp == power
    {
      Player(hp - power)
    }
  }

  /** The hp pair shown on screen. */
  datatype InfoUpdate = InfoUpdate(my: int, op: int)

  /** What an info datagram asks the receiver to set. */
  datatype InfoMsg = SetMy(hp: int) | SetOpponent(hp: int)

  /** Why decoding a datagram panics: too few words, a number that does not parse, or an unknown tag. */
  datatype Fault = MissingToken | BadNumber | BadTag

  // ---------------------------------------------------------------------------
  // Info channel

  /** Sent when this side's own hp changes: the peer stores it as its opponent's hp. */
  function DamageSendMy(h: int): (msg: string)
    ensures SplitWhitespace(msg) == [IntToString(h), "o"]
  {
    DigitsHaveNoWhitespace(h);
    SplitPair(IntToString(h), "o");
    IntToString(h) + " " + "o"
  }

  /** Sent when this side's view of the opponent's hp changes: the peer stores it as its own hp. */
  function DamageSendOpponent(h: int): (msg: string)
    ensures SplitWhitespace(msg) == [IntToString(h), "m"]
  {
    DigitsHaveNoWhitespace(h);
    SplitPair(IntToString(h), "m");
    IntToString(h) + " " + "m"
  }

  /** Decoding an info datagram: the first word is the hp, the last word is the tag. */
  function DecodeInfo(text: string): (r: Result<InfoMsg, Fault>)
    ensures r == Err(MissingToken) <==> SplitWhitespace(text) == []
    ensures r == Err(BadNumber) <==> SplitWhitespace(text) != [] && ParseIsize(SplitWhitespace(text)[0]).None?
    ensures r == Err(BadTag) <==> (SplitWhitespace(text) != [] && ParseIsize(SplitWhitespace(text)[0]).Some? &&
      SplitWhitespace(text)[|SplitWhitespace(text)| - 1] != "m" && SplitWhitespace(text)[|SplitWhitespace(text)| - 1] != "o")
    ensures r.Ok? ==> ParseIsize(SplitWhitespace(text)[0]) == Some(r.value.hp)
    ensures r.Ok? ==> SplitWhitespace(text)[|SplitWhitespace(text)| - 1] == (if r.value.SetMy? then "m" else "o")
  {
    var words := SplitWhitespace(text);
    if words == [] then Err(MissingToken)
    else match ParseIsize(words[0])
      case None => Err(BadNumber)
      case Some(h) =>
        var tag := words[|words| - 1];
        if tag == "m" then Ok(SetMy(h))
        else if tag == "o" then Ok(SetOpponent(h))
        else Err(BadTag)
  }

  lemma DecodeTagged(h: int, tag: string)
    requires -999 <= h <= 9999 && (tag == "m" || tag == "o")
    ensures Recv(IntToString(h) + " " + tag, INFO_BUFFER) == IntToString(h) + " " + tag
    ensures DecodeInfo(IntToString(h) + " " + tag) == Ok(if tag == "m" then SetMy(h) else SetOpponent(h))
  {
    IntLength4(h);
    DigitsHaveNoWhitespace(h);
    SplitPair(IntToString(h), tag);
    ParseIsizeOfInt(h);
  }

  /**
   * An hp in [-999, 9999] crosses the info channel intact, and lands in the
   * opposite field on the receiving side.
   */
  lemma InfoRoundTrip(h: int)
    requires -999 <= h <= 9999
    ensures DecodeInfo(Recv(DamageSendMy(h), INFO_BUFFER)) == Ok(SetOpponent(h))
    ensures DecodeInfo(Recv(DamageSendOpponent(h), INFO_BUFFER)) == Ok(SetMy(h))
  {
    assert DamageSendMy(h) == IntToString(h) + " " + "o";
    assert DamageSendOpponent(h) == IntToString(h) + " " + "m";
    DecodeTagged(h, "o");
    DecodeTagged(h, "m");
  }

  /**
   * An hp whose text is longer than four bytes loses its tag to the 6-byte
   * buffer, and the receiver fails on it.
   */
  lemma InfoTruncated(h: int, tag: string)
    requires !(-999 <= h <= 9999) && (tag == "m" || tag == "o")
    ensures DecodeInfo(Recv(IntToString(h) + " " + tag, INFO_BUFFER)).Err?
  {
    var s := IntToString(h);
    var text := Recv(s + " " + tag, INFO_BUFFER);
    IntLength4(h);
    DigitsHaveNoWhitespace(h);
    var word: string;
    if |s| == 5 {
      word := s;
      assert text == s + " ";
      SplitWord(s, " ");
      assert SplitWhitespace(" ") == [];
    } else {
      word := s[..6];
      assert text == word;
      assert NoWhitespace(word);
      SplitWord(word, []);
      assert word + [] == word;
    }
    assert SplitWhitespace(text) == [word];
    assert word[0] == s[0];
  }

  /** The info channel delivers an hp exactly when it lies in [-999, 9999]. */
  lemma InfoDeliveredIff(h: int)
    ensures DecodeInfo(Recv(DamageSendMy(h), INFO_BUFFER)) == Ok(SetOpponent(h)) <==> -999 <= h <= 9999
    ensures DecodeInfo(Recv(DamageSendOpponent(h), INFO_BUFFER)) == Ok(SetMy(h)) <==> -999 <= h <= 9999
  {
    assert DamageSendMy(h) == IntToString(h) + " " + "o";
    assert DamageSendOpponent(h) == IntToString(h) + " " + "m";
    if -999 <= h <= 9999 {
      InfoRoundTrip(h);
    } else {
      InfoTruncated(h, "o");
      InfoTruncated(h, "m");
    }
  }

  /** At -1000 the tag is cut off: the receiver reads "-1000 " and finds no tag. */
  lemma InfoAtMinusThousand()
    ensures Recv(DamageSendMy(-1000), INFO_BUFFER) == "-1000 "
    ensures DecodeInfo(Recv(DamageSendMy(-1000), INFO_BUFFER)) == Err(BadTag)
  {
    assert NatToString(1000) == "1000";
    assert IntToString(-1000) == "-1000";
    assert DamageSendMy(-1000) == "-1000 o";
    DigitsHaveNoWhitespace(-1000);
    SplitWord("-1000", " ");
    assert SplitWhitespace(" ") == [];
    ParseIsizeOfInt(-1000);
    var words := SplitWhitespace("-1000 ");
    assert "-1000 " == "-1000" + " ";
    assert words == ["-1000"];
    assert ParseIsize(words[0]) == Some(-1000);
    assert words[|words| - 1] != "m" && words[|words| - 1] != "o";
  }

  // ---------------------------------------------------------------------------
  // Position and attack channels

  /**
   * Decoding a position datagram: the first two words as numbers, negated,
   * since the peer's coordinates are seen mirrored through the origin. The
   * words are taken in the source's order: the first word is parsed before
   * the second is looked up, so a lone unparsable word is a bad number.
   */
  function ToPos(text: string): (r: Result<Vec2, Fault>)
    ensures var words := SplitWhitespace(text);
      r == Err(MissingToken) <==> words == [] || (|words| == 1 && ParseDecimal(words[0]).Some?)
    ensures var words := SplitWhitespace(text);
      r == Err(BadNumber) <==>
        words != [] && (ParseDecimal(words[0]).None? || (|words| >= 2 && ParseDecimal(words[1]).None?))
    ensures var words := SplitWhitespace(text);
      r.Ok? <==> |words| >= 2 && ParseDecimal(words[0]).Some? && ParseDecimal(words[1]).Some?
    ensures r.Ok? ==>
      && ParseDecimal(SplitWhitespace(text)[0]) == Some(-r.value.x)
      && ParseDecimal(SplitWhitespace(text)[1]) == Some(-r.value.y)
  {
    var words := SplitWhitespace(text);
    if words == [] then Err(MissingToken)
    else
      var x := ParseDecimal(words[0]);
      if x.None? then Err(BadNumber)
      else if |words| < 2 then Err(MissingToken)
      else
        var y := ParseDecimal(words[1]);
        if y.None? then Err(BadNumber) else Ok(Vec2(-x.value, -y.value))
  }

  /** Integer coordinates in text decode to their mirror image, whatever other words follow. */
  lemma ToPosOfInts(a: int, b: int)
    ensures ToPos(IntToString(a) + " " + IntToString(b)) == Ok(Vec2(-(a as real), -(b as real)))
  {
    DigitsHaveNoWhitespace(a);
    DigitsHaveNoWhitespace(b);
    SplitPair(IntToString(a), IntToString(b));
    ParseDecimalOfInt(a);
    ParseDecimalOfInt(b);
  }

  /** A position sent already negated, as the text of `a` = -x and `b` = -y, comes back as (x, y). */
  lemma MirrorRoundTrip(x: int, y: int, a: int, b: int)
    requires a == -x && b == -y
    ensures ToPos(IntToString(a) + " " + IntToString(b)) == Ok(Vec2(x as real, y as real))
  {
    ToPosOfInts(a, b);
  }

  /** The attack-launch message: the floored position as two integers. */
  function AttackMessage(pos: Vec2): (msg: string)
    ensures SplitWhitespace(msg) == [IntToString(pos.x.Floor), IntToString(pos.y.Floor)]
  {
    DigitsHaveNoWhitespace(pos.x.Floor);
    DigitsHaveNoWhitespace(pos.y.Floor);
    SplitPair(IntToString(pos.x.Floor), IntToString(pos.y.Floor));
    IntToString(pos.x.Floor) + " " + IntToString(pos.y.Floor)
  }

  /** Any position the clamp allows gives an attack message that fits the 9-byte buffer. */
  lemma AttackMessageFits(pos: Vec2)
    requires -CLAMP_X <= pos.x <= CLAMP_X && -CLAMP_Y <= pos.y <= CLAMP_Y
    ensures |AttackMessage(pos)| <= ATTACK_BUFFER
    ensures Recv(AttackMessage(pos), ATTACK_BUFFER) == AttackMessage(pos)
  {
    IntLength4(pos.x.Floor);
    IntLength4(pos.y.Floor);
  }

  /** The bound is tight: the bottom-left corner needs all nine bytes. */
  lemma AttackMessageTight()
    ensures AttackMessage(Vec2(-CLAMP_X, -CLAMP_Y)) == "-350 -525"
    ensures |AttackMessage(Vec2(-CLAMP_X, -CLAMP_Y))| == ATTACK_BUFFER
  {
    assert (-CLAMP_X).Floor == -350 && (-CLAMP_Y).Floor == -525;
    assert NatToString(350) == "350";
    assert NatToString(525) == "525";
  }

  /** A launch: the datagram sent to the peer and the attack spawned locally. */
  datatype Launch = Launch(message: string, shot: Entity.Shot)

  /** Firing in versus mode: a Power attack spawned at the floored position, and that position sent to the peer. */
  function Fire(pos: Vec2): (l: Launch)
    ensures l.shot.attack == Attack(20, Power)
    ensures l.shot.at.pos == Vec2(pos.x.Floor as real, pos.y.Floor as real)
    ensures l.shot.at.scale == Entity.PLAYER_ATTACK_SCALE
  {
    var floored := Vec2(pos.x.Floor as real, pos.y.Floor as real);
    Launch(AttackMessage(pos), Entity.PlayerAttackBundle(Attack.New(Power), floored))
  }

  /** Receiving a launch: a Normal attack at the decoded position, or nothing when no datagram arrived. */
  function OpponentAttack(datagram: Option<string>): (r: Result<Option<Entity.Shot>, Fault>)
    ensures datagram.None? ==> r == Ok(None)
    ensures datagram.Some? ==> (r.Err? <==> ToPos(Recv(datagram.value, ATTACK_BUFFER)).Err?)
    ensures datagram.Some? && r.Ok? ==> r.value.Some?
    ensures r.Ok? && r.value.Some? ==>
      && r.value.value.attack == Attack(4, AttackType.Normal)
      && r.value.value.at.scale == Entity.PLAYER_ATTACK_SCALE
      && ToPos(Recv(datagram.value, ATTACK_BUFFER)) == Ok(r.value.value.at.pos)
  {
    match datagram
    case None => Ok(None)
    case Some(d) =>
      match ToPos(Recv(d, ATTACK_BUFFER))
      case Err(e) => Err(e)
      case Ok(p) => Ok(Some(Entity.PlayerAttackBundle(Attack.New(AttackType.Normal), p)))
  }

  /**
   * Every launch from inside the window reaches the peer intact: the peer
   * spawns an attack at the mirror image of the one spawned locally.
   */
  lemma LaunchRoundTrip(pos: Vec2)
    requires -CLAMP_X <= pos.x <= CLAMP_X && -CLAMP_Y <= pos.y <= CLAMP_Y
    ensures OpponentAttack(Some(Fire(pos).message)).Ok?
    ensures OpponentAttack(Some(Fire(pos).message)).value.Some?
    ensures OpponentAttack(Some(Fire(pos).message)).value.value.at.pos
      == Vec2(-Fire(pos).shot.at.pos.x, -Fire(pos).shot.at.pos.y)
  {
    AttackMessageFits(pos);
    ToPosOfInts(pos.x.Floor, pos.y.Floor);
  }

  /** A datagram holding the integer text of a position inside the window decodes to that position's mirror image. */
  lemma PositionRoundTrip(d: string)
    ensures forall a: int, b: int ::
      -CLAMP_X <= a as real <= CLAMP_X && -CLAMP_Y <= b as real <= CLAMP_Y &&
      d == IntToString(a) + " " + IntToString(b) ==>
        ToPos(Recv(d, POSITION_BUFFER)) == Ok(Vec2(-(a as real), -(b as real)))
  {
    forall a: int, b: int |
      -CLAMP_X <= a as real <= CLAMP_X && -CLAMP_Y <= b as real <= CLAMP_Y &&
      d == IntToString(a) + " " + IntToString(b)
      ensures ToPos(Recv(d, POSITION_BUFFER)) == Ok(Vec2(-(a as real), -(b as real)))
    {
      IntLength4(a);
      IntLength4(b);
      ToPosOfInts(a, b);
    }
  }

  /**
   * Receiving a position: the opponent stays when no datagram arrived, and
   * moves to the mirror image of a position inside the window that the peer
   * sent as integer text.
   */
  function MoveOpponent(current: Vec2, datagram: Option<string>): (r: Result<Vec2, Fault>)
    ensures datagram.None? ==> r == Ok(current)
    ensures forall a: int, b: int ::
      -CLAMP_X <= a as real <= CLAMP_X && -CLAMP_Y <= b as real <= CLAMP_Y &&
      datagram == Some(IntToString(a) + " " + IntToString(b)) ==>
        r == Ok(Vec2(-(a as real), -(b as real)))
  {
    match datagram
    case None => Ok(current)
    case Some(d) =>
      PositionRoundTrip(d);
      ToPos(Recv(d, POSITION_BUFFER))
  }

  // ---------------------------------------------------------------------------
  // Hits

  /** The number of attacks in `attacks` that overlap `target`. */
  function Hits(target: Transform, attacks: seq<Transform>): (n: nat)
    ensures n <= |attacks|
    decreases |attacks|
  {
    if attacks == [] then 0
    else Hits(target, attacks[..|attacks| - 1]) + (if Collide(target, attacks[|attacks| - 1]) then 1 else 0)
  }

  /** Indices of the attacks that overlap `target`. */
  function HitSet(target: Transform, attacks: seq<Transform>): set<int>
  {
    set j | 0 <= j < |attacks| && Collide(target, attacks[j])
  }

  /** One hit per overlapping attack. */
  lemma {:induction false} HitsCountsHitSet(target: Transform, attacks: seq<Transform>)
    ensures |HitSet(target, attacks)| == Hits(target, attacks)
    decreases |attacks|
  {
    if attacks != [] {
      var n := |attacks| - 1;
      HitsCountsHitSet(target, attacks[..n]);
      assert HitSet(target, attacks[..n]) == set j | 0 <= j < n && Collide(target, attacks[j]);
      if Collide(target, attacks[n]) {
        assert HitSet(target, attacks) == HitSet(target, attacks[..n]) + {n};
      } else {
        assert HitSet(target, attacks) == HitSet(target, attacks[..n]);
      }
    }
  }

  // ---------------------------------------------------------------------------
  // The shared game record

  /** Both hp values, as this side sees them. */
  class Game {
    var my: Player
    var opponent: Player

    constructor ()
      ensures my.hp == PLAYER_HP && opponent.hp == PLAYER_HP
    {
      my := Player.Default();
      opponent := Player.Default();
    }

    function Info(): (r: InfoUpdate)
      reads this
      ensures r.my == my.hp && r.op == opponent.hp
    {
      InfoUpdate(my.hp, opponent.hp)
    }

    /**
     * Receiving an info datagram: the tagged field takes the hp and an info
     * update follows. No datagram changes nothing; a datagram that does not
     * decode is a fault, with nothing changed.
     */
    method HpRecv(datagram: Option<string>) returns (r: Result<Option<InfoUpdate>, Fault>)
      modifies this
      ensures datagram.None? ==> r == Ok(None) && my == old(my) && opponent == old(opponent)
      ensures datagram.Some? ==>
        match DecodeInfo(Recv(datagram.value, INFO_BUFFER))
        case Err(e) => r == Err(e) && my == old(my) && opponent == old(opponent)
        case Ok(SetMy(h)) => my == Player(h) && opponent == old(opponent) && r == Ok(Some(InfoUpdate(h, opponent.hp)))
        case Ok(SetOpponent(h)) => opponent == Player(h) && my == old(my) && r == Ok(Some(InfoUpdate(my.hp, h)))
    {
      if datagram.None? {
        return Ok(None);
      }
      var decoded := DecodeInfo(Recv(datagram.value, INFO_BUFFER));
      match decoded {
        case Err(e) =>
          return Err(e);
        case Ok(SetMy(h)) =>
          my := Player(h);
        case Ok(SetOpponent(h)) =>
          opponent := Player(h);
      }
      r := Ok(Some(Info()));
    }

    /**
     * This side's player against the opponent's attacks: each overlapping
     * attack costs 1 hp, sends the new hp and an info update, and is
     * despawned. Nothing ends the round here, however low hp falls.
     */
    method PlayerCollision(me: Transform, attacks: seq<Transform>)
      returns (gone: set<int>, sent: seq<string>, infos: seq<InfoUpdate>)
      modifies this`my
      ensures my.hp == old(my.hp) - Hits(me, attacks)
      ensures gone == HitSet(me, attacks)
      ensures |sent| == |infos| == Hits(me, attacks)
      ensures forall t :: 0 <= t < |sent| ==>
        sent[t] == DamageSendMy(old(my.hp) - (t + 1)) && infos[t] == InfoUpdate(old(my.hp) - (t + 1), opponent.hp)
    {
      gone, sent, infos := {}, [], [];
      var j := 0;
      while j < |attacks|
        invariant 0 <= j <= |attacks|
        invariant my.hp == old(my.hp) - Hits(me, attacks[..j])
        invariant gone == set k | 0 <= k < j && Collide(me, attacks[k])
        invariant |sent| == |infos| == Hits(me, attacks[..j])
        invariant forall t :: 0 <= t < |sent| ==>
          sent[t] == DamageSendMy(old(my.hp) - (t + 1)) && infos[t] == InfoUpdate(old(my.hp) - (t + 1), opponent.hp)
      {
        assert attacks[..j + 1][..j] == attacks[..j];
        if Collide(me, attacks[j]) {
          my := my.Damage(1);
          sent := sent + [DamageSendMy(my.hp)];
          infos := infos + [Info()];
          gone := gone + {j};
        }
        j := j + 1;
      }
      assert attacks[..j] == attacks;
    }

    /** The mirror image: the opponent against this side's attacks. */
    method OpponentCollision(them: Transform, attacks: seq<Transform>)
      returns (gone: set<int>, sent: seq<string>, infos: seq<InfoUpdate>)
      modifies this`opponent
      ensures opponent.hp == old(opponent.hp) - Hits(them, attacks)
      ensures gone == HitSet(them, attacks)
      ensures |sent| == |infos| == Hits(them, attacks)
      ensures forall t :: 0 <= t < |sent| ==>
        sent[t] == DamageSendOpponent(old(opponent.hp) - (t + 1)) && infos[t] == InfoUpdate(my.hp, old(opponent.hp) - (t + 1))
    {
      gone, sent, infos := {}, [], [];
      var j := 0;
      while j < |attacks|
        invariant 0 <= j <= |attacks|
        invariant opponent.hp == old(opponent.hp) - Hits(them, attacks[..j])
        invariant gone == set k | 0 <= k < j && Collide(them, attacks[k])
        invariant |sent| == |infos| == Hits(them, attacks[..j])
        invariant forall t :: 0 <= t < |sent| ==>
          sent[t] == DamageSendOpponent(old(opponent.hp) - (t + 1)) && infos[t] == InfoUpdate(my.hp, old(opponent.hp) - (t + 1))
      {
        assert attacks[..j + 1][..j] == attacks[..j];
        if Collide(them, attacks[j]) {
          opponent := opponent.Damage(1);
          sent := sent + [DamageSendOpponent(opponent.hp)];
          infos := infos + [Info()];
          gone := gone + {j};
        }
        j := j + 1;
      }
      assert attacks[..j] == attacks;
    }
  }
}
