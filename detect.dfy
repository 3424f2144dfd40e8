/** The pose classifier `detect_command(joint_dict, joint_names)`: how the two
    sides of a bilateral joint group (shoulders → `arms`, hands → `hands`) are
    combined into one or two fluent commands, and the parameters of a shoulder
    command. How a single side is classified is an input (see Calibration). */
module Detect {

  import opened Wrappers
  import opened Fluent

  datatype Side = Left | Right

  function SideName(side: Side): string {
    match side
    case Left => "left"
    case Right => "right"
  }

  /** The vocabulary a shoulder is classified into. */
  datatype ArmPose = Forward | Up | Out | Down | Back

  function ArmPoseName(p: ArmPose): string {
    match p
    case Forward => "forward"
    case Up => "up"
    case Out => "out"
    case Down => "down"
    case Back => "back"
  }

  /** The vocabulary a hand is classified into. */
  datatype HandPose = Open | Close

  function HandPoseName(p: HandPose): string {
    match p
    case Open => "open"
    case Close => "close"
  }

  /** What one side of a group contributes: its symbol and its parameters. */
  datatype SideResult = SideResult(symbol: string, params: seq<int>)

  /** The pair of names the tests accept when the two sides differ, with the
      left side's symbol `l` and the right side's `r`: either the left command
      comes first, qualified by the group, and the right one follows bare, or
      the other way round. */
  predicate AcceptedPair(group: string, l: string, r: string, first: string, second: string) {
    || (first == group + ".left_" + l && second == "right_" + r)
    || (first == group + ".right_" + r && second == "left_" + l)
  }

  /** The bilateral combination rule. Agreeing sides collapse into one command
      named `<group>.<symbol>` with the left side's parameters; differing sides
      give two commands, the side `first` qualified by the group and the other
      bare, each with its own side's parameters. */
  function Combine(group: string, left: SideResult, right: SideResult, first: Side): (r: seq<Command>)
    ensures left.symbol == right.symbol ==>
      |r| == 1 && r[0].name == group + "." + left.symbol && r[0].params == left.params
    ensures left.symbol != right.symbol ==>
      && |r| == 2
      && AcceptedPair(group, left.symbol, right.symbol, r[0].name, r[1].name)
      && (first == Left ==>
            && r[0].name == group + ".left_" + left.symbol && r[0].params == left.params
            && r[1].name == "right_" + right.symbol && r[1].params == right.params)
      && (first == Right ==>
            && r[0].name == group + ".right_" + right.symbol && r[0].params == right.params
            && r[1].name == "left_" + left.symbol && r[1].params == left.params)
  {
    if left.symbol == right.symbol then
      [Command(group + "." + left.symbol, left.params)]
    else
      var (a, b) := if first == Left then (left, right) else (right, left);
      var (sa, sb) := if first == Left then (Left, Right) else (Right, Left);
      var r := [Command(group + "." + (SideName(sa) + "_") + a.symbol, a.params),
                Command(SideName(sb) + "_" + b.symbol, b.params)];
      assert (group + ".") + "left_" == group + ".left_";
      assert (group + ".") + "right_" == group + ".right_";
      r
  }

  // ---------------------------------------------------------------------------
  // Shoulders

  /** One shoulder's pitch and roll, in whole degrees, in the left side's sign
      convention. */
  datatype ShoulderAngles = ShoulderAngles(pitch: int, roll: int)

  /** The right shoulder's roll is mirrored relative to the left one. */
  function RightAsLeft(a: ShoulderAngles): ShoulderAngles {
    ShoulderAngles(a.pitch, -a.roll)
  }

  /** The poses whose canonical angles the offsets below are measured from. */
  predicate HasKnownOffsets(p: ArmPose) {
    p == Forward || p == Up || p == Out
  }

  /** The canonical angles of forward (0°, 0°), up (pitch −90°) and out (roll 90°). */
  function CanonicalAngles(p: ArmPose): ShoulderAngles
    requires HasKnownOffsets(p)
  {
    match p
    case Forward => ShoulderAngles(0, 0)
    case Up => ShoulderAngles(-90, 0)
    case Out => ShoulderAngles(0, 90)
  }

  /** The (pitch, roll) offsets of a shoulder command: forward (pitch, −roll),
      up (−90 − pitch, −roll), out (−pitch, roll − 90). For down and back the
      offsets come from `rest`. */
  function ShoulderOffsets(p: ArmPose, a: ShoulderAngles,
                           rest: (ArmPose, ShoulderAngles) -> (int, int)): (r: (int, int))
    ensures HasKnownOffsets(p) && a == CanonicalAngles(p) ==> r == (0, 0)
    ensures HasKnownOffsets(p) ==> AnglesFromOffsets(p, r.0, r.1) == a
  {
    match p
    case Forward => (a.pitch, -a.roll)
    case Up => (-90 - a.pitch, -a.roll)
    case Out => (-a.pitch, a.roll - 90)
    case Down => rest(p, a)
    case Back => rest(p, a)
  }

  /** The angles that a pose's offsets describe: the inverse of ShoulderOffsets. */
  function AnglesFromOffsets(p: ArmPose, pitchOffset: int, rollOffset: int): ShoulderAngles
    requires HasKnownOffsets(p)
  {
    match p
    case Forward => ShoulderAngles(pitchOffset, -rollOffset)
    case Up => ShoulderAngles(-90 - pitchOffset, -rollOffset)
    case Out => ShoulderAngles(-pitchOffset, rollOffset + 90)
  }

  /** What the implementation fixes but the visible sources do not: how one side
      is classified, the down and back offsets, the first parameter slot of a
      shoulder command, and which side is listed first when the sides differ,
      chosen per call from the group and the left and right symbols. */
  datatype Calibration = Calibration(
    armPose: ShoulderAngles -> ArmPose,
    restOffsets: (ArmPose, ShoulderAngles) -> (int, int),
    handPose: int -> HandPose,
    lead: int,
    first: (string, string, string) -> Side)

  /** One shoulder's sub-result: its symbol and the parameters
      [lead, pitch offset, roll offset]. */
  function ShoulderResult(cal: Calibration, a: ShoulderAngles): SideResult
  {
    var p := cal.armPose(a);
    var (po, ro) := ShoulderOffsets(p, a, cal.restOffsets);
    SideResult(ArmPoseName(p), [cal.lead, po, ro])
  }

  /** One hand's sub-result: its symbol and no parameters. */
  function HandResult(cal: Calibration, aperture: int): SideResult
  {
    SideResult(HandPoseName(cal.handPose(aperture)), [])
  }

  // ---------------------------------------------------------------------------
  // The frame and detect_command

  /** Joint name to reading: shoulder angles in whole degrees, hand apertures
      as the integers `Calibration.handPose` classifies. */
  type Frame = map<string, int>

  const ShoulderJoints: set<string> := {"LShoulderPitch", "LShoulderRoll", "RShoulderPitch", "RShoulderRoll"}
  const HandJoints: set<string> := {"LHand", "RHand"}

  /** A group is examined when all its joints are asked for and present. */
  predicate Observed(group: set<string>, frame: Frame, jointNames: set<string>) {
    group <= jointNames && group <= frame.Keys
  }

  function LeftShoulder(frame: Frame): ShoulderAngles
    requires ShoulderJoints <= frame.Keys
  {
    ShoulderAngles(frame["LShoulderPitch"], frame["LShoulderRoll"])
  }

  function RightShoulder(frame: Frame): ShoulderAngles
    requires ShoulderJoints <= frame.Keys
  {
    RightAsLeft(ShoulderAngles(frame["RShoulderPitch"], frame["RShoulderRoll"]))
  }

  /** The shoulders' commands: one when both shoulders are classified alike,
      two otherwise. */
  function DetectArms(cal: Calibration, frame: Frame): (r: seq<Command>)
    requires ShoulderJoints <= frame.Keys
    ensures |r| == 1 <==> cal.armPose(LeftShoulder(frame)) == cal.armPose(RightShoulder(frame))
    ensures |r| == 1 || |r| == 2
  {
    var l, r := ShoulderResult(cal, LeftShoulder(frame)), ShoulderResult(cal, RightShoulder(frame));
    ArmPoseNameInjective(cal.armPose(LeftShoulder(frame)), cal.armPose(RightShoulder(frame)));
    Combine("arms", l, r, cal.first("arms", l.symbol, r.symbol))
  }

  /** The hands' commands: one when both hands are classified alike, two otherwise. */
  function DetectHands(cal: Calibration, frame: Frame): (r: seq<Command>)
    requires HandJoints <= frame.Keys
    ensures |r| == 1 <==> cal.handPose(frame["LHand"]) == cal.handPose(frame["RHand"])
    ensures |r| == 1 || |r| == 2
  {
    var l, r := HandResult(cal, frame["LHand"]), HandResult(cal, frame["RHand"]);
    HandPoseNameInjective(cal.handPose(frame["LHand"]), cal.handPose(frame["RHand"]));
    Combine("hands", l, r, cal.first("hands", l.symbol, r.symbol))
  }

  /** `detect_command(joint_dict, joint_names)`: the commands of every observed
      group, arms before hands. */
  function DetectCommand(cal: Calibration, frame: Frame, jointNames: set<string>): (r: seq<Command>)
    ensures r == [] <==> !Observed(ShoulderJoints, frame, jointNames) && !Observed(HandJoints, frame, jointNames)
  {
    (if Observed(ShoulderJoints, frame, jointNames) then DetectArms(cal, frame) else [])
    + (if Observed(HandJoints, frame, jointNames) then DetectHands(cal, frame) else [])
  }

  // ---------------------------------------------------------------------------
  // Lemmas

  /** Two differently named symbols are told apart by the names: an accepted
      pair of names fixes which symbol each side has. */
  lemma AcceptedPairDetermines(group: string, l: string, r: string, l': string, r': string,
                               first: string, second: string)
    requires AcceptedPair(group, l, r, first, second)
    requires AcceptedPair(group, l', r', first, second)
    ensures l == l' && r == r'
  {
    var n := |group| + 1;
    assert (group + ".left_" + l')[n] == 'l' && (group + ".right_" + r')[n] == 'r';
    if first == group + ".left_" + l && second == "right_" + r {
      assert first[n] == 'l';
      assert first == group + ".left_" + l' && second == "right_" + r';
      assert l == first[n + 5..] == l';
      assert r == second[6..] == r';
    } else {
      assert first[n] == 'r';
      assert first == group + ".right_" + r' && second == "left_" + l';
      assert r == first[n + 6..] == r';
      assert l == second[5..] == l';
    }
  }

  lemma ArmPoseNameInjective(p: ArmPose, q: ArmPose)
    ensures ArmPoseName(p) == ArmPoseName(q) <==> p == q
  {
    if p != q {
      assert ArmPoseName(p)[0] != ArmPoseName(q)[0] || |ArmPoseName(p)| != |ArmPoseName(q)|;
    }
  }

  lemma HandPoseNameInjective(p: HandPose, q: HandPose)
    ensures HandPoseName(p) == HandPoseName(q) <==> p == q
  {
    if p != q {
      assert HandPoseName(p)[0] != HandPoseName(q)[0];
    }
  }

  /** Both shoulders in the same pose: exactly one command, `arms.<pose>`,
      whose parameters hold the left shoulder's offsets at indices 1 and 2. */
  lemma ArmsAgree(cal: Calibration, frame: Frame, p: ArmPose)
    requires ShoulderJoints <= frame.Keys
    requires cal.armPose(LeftShoulder(frame)) == p && cal.armPose(RightShoulder(frame)) == p
    ensures var r := DetectArms(cal, frame); var a := LeftShoulder(frame);
      && |r| == 1 && r[0].name == "arms." + ArmPoseName(p) && |r[0].params| == 3
      && (p == Forward ==> r[0].params[1] == a.pitch && r[0].params[2] == -a.roll)
      && (p == Up ==> r[0].params[1] == -90 - a.pitch && r[0].params[2] == -a.roll)
      && (p == Out ==> r[0].params[1] == -a.pitch && r[0].params[2] == a.roll - 90)
  {
  }

  /** Shoulders in different poses: exactly two commands, named as one of the
      two accepted pairs and no other. */
  lemma ArmsDisagree(cal: Calibration, frame: Frame)
    requires ShoulderJoints <= frame.Keys
    requires cal.armPose(LeftShoulder(frame)) != cal.armPose(RightShoulder(frame))
    ensures var r := DetectArms(cal, frame);
      && |r| == 2
      && AcceptedPair("arms", ArmPoseName(cal.armPose(LeftShoulder(frame))),
                      ArmPoseName(cal.armPose(RightShoulder(frame))), r[0].name, r[1].name)
  {
    ArmPoseNameInjective(cal.armPose(LeftShoulder(frame)), cal.armPose(RightShoulder(frame)));
  }

  /** Left shoulder up, right shoulder out: `arms.left_up` then `right_out`,
      or `arms.right_out` then `left_up`. */
  lemma ArmsLeftUpRightOut(cal: Calibration, frame: Frame)
    requires ShoulderJoints <= frame.Keys
    requires cal.armPose(LeftShoulder(frame)) == Up && cal.armPose(RightShoulder(frame)) == Out
    ensures var r := DetectArms(cal, frame);
      && |r| == 2
      && ((r[0].name == "arms.left_up" && r[1].name == "right_out")
       || (r[0].name == "arms.right_out" && r[1].name == "left_up"))
  {
    ArmsDisagree(cal, frame);
    UpOutNames();
  }

  lemma UpOutNames()
    ensures "arms" + ".left_" + "up" == "arms.left_up" && "right_" + "out" == "right_out"
    ensures "arms" + ".right_" + "out" == "arms.right_out" && "left_" + "up" == "left_up"
  {
  }

  /** Hands that differ: two commands, named as one of the two accepted pairs. */
  lemma HandsDisagree(cal: Calibration, frame: Frame)
    requires HandJoints <= frame.Keys
    requires cal.handPose(frame["LHand"]) != cal.handPose(frame["RHand"])
    ensures var r := DetectHands(cal, frame);
      && |r| == 2
      && AcceptedPair("hands", HandPoseName(cal.handPose(frame["LHand"])),
                      HandPoseName(cal.handPose(frame["RHand"])), r[0].name, r[1].name)
  {
    HandPoseNameInjective(cal.handPose(frame["LHand"]), cal.handPose(frame["RHand"]));
  }

  /** Asking for the shoulder joints alone gives exactly the arm commands. */
  lemma ShouldersOnly(cal: Calibration, frame: Frame)
    requires ShoulderJoints <= frame.Keys
    ensures DetectCommand(cal, frame, ShoulderJoints) == DetectArms(cal, frame)
  {
    assert "LHand" !in ShoulderJoints;
    assert DetectCommand(cal, frame, ShoulderJoints) == DetectArms(cal, frame) + [];
  }

  lemma HandsOnly(cal: Calibration, frame: Frame)
    requires HandJoints <= frame.Keys
    ensures DetectCommand(cal, frame, HandJoints) == DetectHands(cal, frame)
  {
    assert "LShoulderPitch" !in HandJoints;
    assert DetectCommand(cal, frame, HandJoints) == [] + DetectHands(cal, frame);
  }

  /** All-zero shoulders classified forward: one command `arms.forward` with
      zero offsets. */
  lemma ArmsForwardAtZero(cal: Calibration, frame: Frame)
    requires ShoulderJoints <= frame.Keys
    requires LeftShoulder(frame) == ShoulderAngles(0, 0) && RightShoulder(frame) == ShoulderAngles(0, 0)
    requires cal.armPose(ShoulderAngles(0, 0)) == Forward
    ensures DetectArms(cal, frame) == [Command("arms.forward", [cal.lead, 0, 0])]
  {
    var side := ShoulderResult(cal, ShoulderAngles(0, 0));
    assert side == SideResult("forward", [cal.lead, 0, 0]);
    var r := DetectArms(cal, frame);
    assert r == Combine("arms", side, side, cal.first("arms", side.symbol, side.symbol));
    assert r == [Command("arms" + "." + "forward", [cal.lead, 0, 0])];
    assert "arms" + "." + "forward" == "arms.forward";
  }

  // ---------------------------------------------------------------------------
  // Detection and rendering together

  lemma PlainJoin(a: string, b: string)
    requires PlainName(a) && PlainName(b)
    ensures PlainName(a + b)
  {
    forall i | 0 <= i < |a + b| ensures (a + b)[i] != '(' {
      if i >= |a| { assert (a + b)[i] == b[i - |a|]; }
    }
  }

  /** Symbols made of letters and underscores only. */
  lemma ArmPoseNamePlain(p: ArmPose)
    ensures PlainName(ArmPoseName(p))
  {
  }

  lemma HandPoseNamePlain(p: HandPose)
    ensures PlainName(HandPoseName(p))
  {
  }

  lemma CombinePlain(group: string, left: SideResult, right: SideResult, first: Side)
    requires PlainName(group) && PlainName(left.symbol) && PlainName(right.symbol)
    ensures PlainNames(Combine(group, left, right, first))
  {
    var r := Combine(group, left, right, first);
    PlainJoin(group, ".");
    PlainJoin(group + ".", left.symbol);
    PlainJoin(group, ".left_");
    PlainJoin(group, ".right_");
    PlainJoin(group + ".left_", left.symbol);
    PlainJoin(group + ".right_", right.symbol);
    PlainJoin("left_", left.symbol);
    PlainJoin("right_", right.symbol);
  }

  lemma ArmsPlain(cal: Calibration, frame: Frame)
    requires ShoulderJoints <= frame.Keys
    ensures PlainNames(DetectArms(cal, frame))
  {
    ArmPoseNamePlain(cal.armPose(LeftShoulder(frame)));
    ArmPoseNamePlain(cal.armPose(RightShoulder(frame)));
    var l, r := ShoulderResult(cal, LeftShoulder(frame)), ShoulderResult(cal, RightShoulder(frame));
    CombinePlain("arms", l, r, cal.first("arms", l.symbol, r.symbol));
  }

  lemma HandsPlain(cal: Calibration, frame: Frame)
    requires HandJoints <= frame.Keys
    ensures PlainNames(DetectHands(cal, frame))
  {
    HandPoseNamePlain(cal.handPose(frame["LHand"]));
    HandPoseNamePlain(cal.handPose(frame["RHand"]));
    var l, r := HandResult(cal, frame["LHand"]), HandResult(cal, frame["RHand"]);
    CombinePlain("hands", l, r, cal.first("hands", l.symbol, r.symbol));
  }

  lemma PlainNamesAppend(xs: seq<Command>, ys: seq<Command>)
    requires PlainNames(xs) && PlainNames(ys)
    ensures PlainNames(xs + ys)
  {
    var r := xs + ys;
    forall i | 0 <= i < |r| ensures PlainName(r[i].name) {
      if i < |xs| { assert r[i] == xs[i]; } else { assert r[i] == ys[i - |xs|]; }
    }
  }

  /** The text of a detection reads back as the detected commands: the
      classifier's output always renders, and renders without loss. */
  lemma DetectedTextRoundTrip(cal: Calibration, frame: Frame, jointNames: set<string>)
    ensures var r := DetectCommand(cal, frame, jointNames);
      ReadChain(CommandsToText(r)) == Some(r)
  {
    var arms := if Observed(ShoulderJoints, frame, jointNames) then DetectArms(cal, frame) else [];
    var hands := if Observed(HandJoints, frame, jointNames) then DetectHands(cal, frame) else [];
    if Observed(ShoulderJoints, frame, jointNames) { ArmsPlain(cal, frame); }
    if Observed(HandJoints, frame, jointNames) { HandsPlain(cal, frame); }
    PlainNamesAppend(arms, hands);
    CommandsToTextRoundTrip(DetectCommand(cal, frame, jointNames));
  }
}
