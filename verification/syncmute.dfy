/**
 * SyncMute: eight mutes that swap on a multiple or a division of a clock, and the message
 * network through which a row of adjacent SyncMute modules control one another.
 *
 * Routing is modelled on a row of module values: `Row` lists, left to right, the SyncMute
 * modules that sit next to each other (a module of another kind ends the row), each with its
 * two control switches, whether its own clock input is patched and its message queue.
 */
module SyncMute {
  import opened Wrappers
  import Decimal
  import Json

  const UINT64_MAX: nat := 0xFFFF_FFFF_FFFF_FFFF
  const MUTE_COUNT: nat := 8

  datatype MessageType = OnButton | OnButtonAuto | OnReset | OnClock

  /** A message between modules; `sender` identifies the module that first sent it. */
  datatype ExpanderMessage = ExpanderMessage(
    sender: nat, kind: MessageType, buttonId: int, autoPress: bool, time: real, clockTicksSinceReset: nat)

  // The four factories; fields they do not name are zero, as in an aggregate initialisation.

  function ResetMessage(sender: nat): (m: ExpanderMessage)
    ensures m.kind == OnReset && m.sender == sender
  {
    ExpanderMessage(sender, OnReset, 0, false, 0.0, 0)
  }

  function ButtonMessage(sender: nat, buttonId: int): (m: ExpanderMessage)
    ensures m.kind == OnButton && m.sender == sender && m.buttonId == buttonId
  {
    ExpanderMessage(sender, OnButton, buttonId, false, 0.0, 0)
  }

  /** A clock message; the tick count defaults to the largest 64-bit value, meaning "no tick count". */
  function ClockMessage(sender: nat, clockTime: real, ticks: Option<nat>): (m: ExpanderMessage)
    ensures m.kind == OnClock && m.sender == sender && m.time == clockTime
    ensures ticks.None? ==> m.clockTicksSinceReset == UINT64_MAX
    ensures ticks.Some? ==> m.clockTicksSinceReset == ticks.value
  {
    ExpanderMessage(sender, OnClock, 0, false, clockTime, if ticks.Some? then ticks.value else UINT64_MAX)
  }

  function ButtonAutoPress(sender: nat, buttonId: int, autoPress: bool): (m: ExpanderMessage)
    ensures m.kind == OnButtonAuto && m.sender == sender && m.buttonId == buttonId && m.autoPress == autoPress
  {
    ExpanderMessage(sender, OnButtonAuto, buttonId, autoPress, 0.0, 0)
  }

  // ---------------------------------------------------------------------------------------
  // Routing between adjacent modules
  // ---------------------------------------------------------------------------------------

  datatype Direction = Both | Left | Right

  /** One module of a row: `expanderLeft`/`expanderRight` say whether it controls that neighbour. */
  datatype Unit = Unit(expanderLeft: bool, expanderRight: bool, clockConnected: bool, queue: seq<ExpanderMessage>)

  type Row = seq<Unit>

  /** Two rows with the same modules, switches and clock cables; only the queues may differ. */
  predicate SameWiring(a: Row, b: Row)
  {
    |a| == |b| &&
    forall k :: 0 <= k < |a| ==>
      a[k].expanderLeft == b[k].expanderLeft && a[k].expanderRight == b[k].expanderRight &&
      a[k].clockConnected == b[k].clockConnected
  }

  /** A measure that shrinks as a message travels away from where it was sent. */
  function Reach(row: Row, i: nat, dir: Direction): nat
  {
    match dir
    case Left => i
    case Right => if i <= |row| then |row| - i else 0
    case Both => |row| + 1
  }

  /** `sendExpanderMessage`: hand the message to each neighbour this module controls. */
  function Send(row: Row, i: nat, msg: ExpanderMessage, dir: Direction): (r: Row)
    requires i < |row|
    ensures SameWiring(row, r)
    decreases Reach(row, i, dir), 0
  {
    var r1 := if row[i].expanderLeft && 0 < i && dir != Right then Receive(row, i - 1, Left, msg) else row;
    if row[i].expanderRight && i + 1 < |row| && dir != Left then Receive(r1, i + 1, Right, msg) else r1
  }

  /**
   * `recieveExpanderMessage`: drop clock messages while the own clock is patched and messages
   * from a module this one controls; otherwise queue the message and pass it on.
   */
  function Receive(row: Row, j: nat, from: Direction, msg: ExpanderMessage): (r: Row)
    requires j < |row| && from != Both
    ensures SameWiring(row, r)
    decreases Reach(row, j, from), 1
  {
    if row[j].clockConnected && msg.kind == OnClock then row
    else if from == Left && row[j].expanderRight then row
    else if from == Right && row[j].expanderLeft then row
    else
      var r1 := row[j := row[j].(queue := row[j].queue + [msg])];
      var r2 := if row[j].expanderLeft then Send(r1, j, msg, Left) else r1;
      if row[j].expanderRight then Send(r2, j, msg, Right) else r2
  }

  /** Whether a module takes a message arriving while travelling in direction `from`. */
  predicate Accepts(u: Unit, from: Direction, msg: ExpanderMessage)
  {
    !(u.clockConnected && msg.kind == OnClock) &&
    !(from == Left && u.expanderRight) &&
    !(from == Right && u.expanderLeft)
  }

  /**
   * A message arriving at `start` while travelling left ends in the queue of module `m`: every
   * module from `start` down to just before `m` takes it and controls its left neighbour, and
   * `m` takes it.
   */
  predicate ChainLeft(row: Row, start: nat, m: nat, msg: ExpanderMessage)
  {
    m <= start < |row| &&
    (forall k :: m < k <= start ==> Accepts(row[k], Left, msg) && row[k].expanderLeft) &&
    Accepts(row[m], Left, msg)
  }

  /** The mirror image of `ChainLeft`. */
  predicate ChainRight(row: Row, start: nat, m: nat, msg: ExpanderMessage)
  {
    start <= m < |row| &&
    (forall k :: start <= k < m ==> Accepts(row[k], Right, msg) && row[k].expanderRight) &&
    Accepts(row[m], Right, msg)
  }

  predicate Chain(row: Row, start: nat, from: Direction, m: nat, msg: ExpanderMessage)
  {
    if from == Left then ChainLeft(row, start, m, msg) else ChainRight(row, start, m, msg)
  }

  /** Module `m` gets the message that module `i` sends in direction `dir`. */
  predicate Delivered(row: Row, i: nat, m: nat, msg: ExpanderMessage, dir: Direction)
  {
    (dir != Right && i < |row| && row[i].expanderLeft && 0 < i && ChainLeft(row, i - 1, m, msg)) ||
    (dir != Left && i < |row| && row[i].expanderRight && i + 1 < |row| && ChainRight(row, i + 1, m, msg))
  }

  /** `r` is `row` with `msg` appended to the queues of exactly the modules `hit` names. */
  predicate AppendedWhere(row: Row, r: Row, msg: ExpanderMessage, hit: set<nat>)
  {
    |r| == |row| &&
    forall m: nat :: m < |row| ==>
      r[m] == row[m].(queue := row[m].queue + if m in hit then [msg] else [])
  }

  function Hits(row: Row, start: nat, from: Direction, msg: ExpanderMessage): set<nat>
  {
    set m: nat | m < |row| && Chain(row, start, from, m, msg)
  }

  function Targets(row: Row, i: nat, msg: ExpanderMessage, dir: Direction): set<nat>
  {
    set m: nat | m < |row| && Delivered(row, i, m, msg, dir)
  }

  lemma ChainWiring(a: Row, b: Row, start: nat, from: Direction, m: nat, msg: ExpanderMessage)
    requires SameWiring(a, b)
    ensures Chain(a, start, from, m, msg) == Chain(b, start, from, m, msg)
  {
    if from == Left {
      if m <= start < |a| {
        assert Accepts(a[m], Left, msg) == Accepts(b[m], Left, msg);
        forall k | m < k <= start
          ensures (Accepts(a[k], Left, msg) && a[k].expanderLeft) == (Accepts(b[k], Left, msg) && b[k].expanderLeft)
        {
        }
      }
    } else {
      if start <= m < |a| {
        assert Accepts(a[m], Right, msg) == Accepts(b[m], Right, msg);
        forall k | start <= k < m
          ensures (Accepts(a[k], Right, msg) && a[k].expanderRight) == (Accepts(b[k], Right, msg) && b[k].expanderRight)
        {
        }
      }
    }
  }

  /** A chain through `start` is `start` itself taking the message, then the chain beyond it. */
  lemma ChainStep(row: Row, start: nat, from: Direction, m: nat, msg: ExpanderMessage)
    requires start < |row| && from != Both && m != start
    ensures Chain(row, start, from, m, msg) <==>
      Accepts(row[start], from, msg) &&
      (if from == Left then row[start].expanderLeft && 0 < start && Chain(row, start - 1, Left, m, msg)
       else row[start].expanderRight && start + 1 < |row| && Chain(row, start + 1, Right, m, msg))
  {
  }

  /** Where a received message ends up: exactly the modules of the chain starting at `j`. */
  lemma {:induction false} ReceiveDelivers(row: Row, j: nat, from: Direction, msg: ExpanderMessage)
    requires j < |row| && from != Both
    ensures AppendedWhere(row, Receive(row, j, from, msg), msg, Hits(row, j, from, msg))
    decreases Reach(row, j, from), 1
  {
    var r := Receive(row, j, from, msg);
    var hits := Hits(row, j, from, msg);
    if !Accepts(row[j], from, msg) {
      forall m: nat | m < |row| ensures m !in hits {
        if m != j { ChainStep(row, j, from, m, msg); }
      }
    } else {
      var r1 := row[j := row[j].(queue := row[j].queue + [msg])];
      assert SameWiring(row, r1);
      if from == Left {
        assert !row[j].expanderRight;
        if row[j].expanderLeft && 0 < j {
          SendDelivers(r1, j, msg, Left);
          var rest := Targets(r1, j, msg, Left);
          forall m: nat | m < |row| ensures (m in hits) == (m == j || m in rest) {
            ChainWiring(row, r1, j - 1, Left, m, msg);
            if m != j { ChainStep(row, j, Left, m, msg); }
          }
        } else {
          forall m: nat | m < |row| ensures (m in hits) == (m == j) {
            if m != j { ChainStep(row, j, Left, m, msg); }
          }
        }
      } else {
        assert !row[j].expanderLeft;
        if row[j].expanderRight && j + 1 < |row| {
          SendDelivers(r1, j, msg, Right);
          var rest := Targets(r1, j, msg, Right);
          forall m: nat | m < |row| ensures (m in hits) == (m == j || m in rest) {
            ChainWiring(row, r1, j + 1, Right, m, msg);
            if m != j { ChainStep(row, j, Right, m, msg); }
          }
        } else {
          forall m: nat | m < |row| ensures (m in hits) == (m == j) {
            if m != j { ChainStep(row, j, Right, m, msg); }
          }
        }
      }
    }
  }

  /**
   * Where a sent message ends up: appended once to the queue of every module `Delivered` names
   * and to no other queue; in particular never back to the sender.
   */
  lemma {:induction false} SendDelivers(row: Row, i: nat, msg: ExpanderMessage, dir: Direction)
    requires i < |row|
    ensures AppendedWhere(row, Send(row, i, msg, dir), msg, Targets(row, i, msg, dir))
    ensures i !in Targets(row, i, msg, dir)
    decreases Reach(row, i, dir), 0
  {
    var leftOn := row[i].expanderLeft && 0 < i && dir != Right;
    var rightOn := row[i].expanderRight && i + 1 < |row| && dir != Left;
    var r1 := if leftOn then Receive(row, i - 1, Left, msg) else row;
    var leftHits := if leftOn then Hits(row, i - 1, Left, msg) else {};
    var rightHits := if rightOn then Hits(row, i + 1, Right, msg) else {};
    TargetsSplit(row, i, msg, dir);
    if leftOn {
      ReceiveDelivers(row, i - 1, Left, msg);
    } else {
      NothingAppended(row, msg);
    }
    if rightOn {
      ReceiveDelivers(r1, i + 1, Right, msg);
      HitsWiring(row, r1, i + 1, Right, msg);
      AppendedCompose(row, r1, Send(row, i, msg, dir), msg, leftHits, rightHits);
    } else {
      assert Send(row, i, msg, dir) == r1;
      assert leftHits + rightHits == leftHits;
    }
  }

  /** A row is itself with nothing appended. */
  lemma NothingAppended(row: Row, msg: ExpanderMessage)
    ensures AppendedWhere(row, row, msg, {})
  {
    forall m: nat | m < |row| ensures row[m] == row[m].(queue := row[m].queue + []) {
      assert row[m].queue + [] == row[m].queue;
    }
  }

  /** Appending to two disjoint sets of modules one after the other appends to their union. */
  lemma AppendedCompose(row: Row, r1: Row, r2: Row, msg: ExpanderMessage, a: set<nat>, b: set<nat>)
    requires AppendedWhere(row, r1, msg, a) && AppendedWhere(r1, r2, msg, b) && a !! b
    ensures AppendedWhere(row, r2, msg, a + b)
  {
    forall m: nat | m < |row|
      ensures r2[m] == row[m].(queue := row[m].queue + if m in a + b then [msg] else [])
    {
      if m in a {
        assert r1[m].queue == row[m].queue + [msg];
        assert r2[m].queue == r1[m].queue + [];
      } else {
        assert r1[m].queue == row[m].queue + [];
      }
    }
  }

  /** The chains from a module depend only on the wiring, not on the queues. */
  lemma HitsWiring(a: Row, b: Row, start: nat, from: Direction, msg: ExpanderMessage)
    requires SameWiring(a, b)
    ensures Hits(a, start, from, msg) == Hits(b, start, from, msg)
  {
    forall m: nat | m < |a| ensures Chain(a, start, from, m, msg) == Chain(b, start, from, m, msg) {
      ChainWiring(a, b, start, from, m, msg);
    }
  }

  /**
   * The modules a sent message reaches: the chain to the left of the sender and the chain to its
   * right, which are disjoint and leave out the sender.
   */
  lemma TargetsSplit(row: Row, i: nat, msg: ExpanderMessage, dir: Direction)
    requires i < |row|
    ensures var leftHits := if row[i].expanderLeft && 0 < i && dir != Right then Hits(row, i - 1, Left, msg) else {};
      var rightHits := if row[i].expanderRight && i + 1 < |row| && dir != Left then Hits(row, i + 1, Right, msg) else {};
      Targets(row, i, msg, dir) == leftHits + rightHits && leftHits !! rightHits && i !in leftHits + rightHits
  {
  }

  /** `isControlledLeft`: the left neighbour controls this module and this one does not control it. */
  predicate IsControlledLeft(row: Row, i: nat)
    requires i < |row|
  {
    !row[i].expanderLeft && 0 < i && row[i - 1].expanderRight
  }

  predicate IsControlledRight(row: Row, i: nat)
    requires i < |row|
  {
    !row[i].expanderRight && i + 1 < |row| && row[i + 1].expanderLeft
  }

  /** `isControlled`. */
  predicate IsControlled(row: Row, i: nat)
    requires i < |row|
  {
    IsControlledLeft(row, i) || IsControlledRight(row, i)
  }

  /**
   * A controlled module gets every message its controller sends, except clock messages while
   * its own clock input is patched.
   */
  lemma ControlledReceives(row: Row, i: nat, msg: ExpanderMessage)
    requires i < |row|
    requires !(row[i].clockConnected && msg.kind == OnClock)
    ensures IsControlledLeft(row, i) ==> i in Targets(row, i - 1, msg, Both)
    ensures IsControlledRight(row, i) ==> i in Targets(row, i + 1, msg, Both)
  {
    if IsControlledLeft(row, i) {
      assert ChainRight(row, i, i, msg);
    }
    if IsControlledRight(row, i) {
      assert ChainLeft(row, i, i, msg);
    }
  }

  /** Two modules that control each other drop each other's messages. */
  lemma MutualControlDrops(row: Row, i: nat, msg: ExpanderMessage)
    requires i + 1 < |row| && row[i].expanderRight && row[i + 1].expanderLeft
    ensures i + 1 !in Targets(row, i, msg, Both)
    ensures i !in Targets(row, i + 1, msg, Both)
  {
  }

  // ---------------------------------------------------------------------------------------
  // Ratio labels
  // ---------------------------------------------------------------------------------------

  /** The labels of the ratio switch, for the values -32 to 32 in order. */
  const SigsStrings: seq<string> :=
    [
      "/32", "/31", "/30", "/29", "/28", "/27", "/26", "/25", "/24", "/23", "/22", "/21",
      "/20", "/19", "/18", "/17", "/16", "/15", "/14", "/13", "/12", "/11", "/10", "/9",
      "/8", "/7", "/6", "/5", "/4", "/3", "/2", "/1"
    ] + ["Immediate"] + [
      "X1", "X2", "X3", "X4", "X5", "X6", "X7", "X8", "X9", "X10", "X11", "X12", "X13",
      "X14", "X15", "X16", "X17", "X18", "X19", "X20", "X21", "X22", "X23", "X24", "X25",
      "X26", "X27", "X28", "X29", "X30", "X31", "X32"
    ]

  /** The label a ratio means: a division for negative values, a multiple for positive ones. */
  function RatioLabel(v: int): string
  {
    if v < 0 then "/" + Decimal.NatToString(-v)
    else if v == 0 then "Immediate"
    else "X" + Decimal.NatToString(v)
  }

  /** The label table holds, for each ratio from -32 to 32, the label of that ratio. */
  lemma SigsStringsLabel(v: int)
    requires -32 <= v <= 32
    ensures |SigsStrings| == 65
    ensures SigsStrings[v + 32] == RatioLabel(v)
  {
    if v == 0 {
      assert SigsStrings[32] == "Immediate";
    } else if v <= -29 {
      LabelsFromMinus32(v);
    } else if v <= -25 {
      LabelsFromMinus28(v);
    } else if v <= -21 {
      LabelsFromMinus24(v);
    } else if v <= -17 {
      LabelsFromMinus20(v);
    } else if v <= -13 {
      LabelsFromMinus16(v);
    } else if v <= -9 {
      LabelsFromMinus12(v);
    } else if v <= -1 {
      LabelsFromMinus8(v);
    } else if v <= 4 {
      LabelsFrom1(v);
    } else if v <= 8 {
      LabelsFrom5(v);
    } else if v <= 12 {
      LabelsFrom9(v);
    } else if v <= 16 {
      LabelsFrom13(v);
    } else if v <= 20 {
      LabelsFrom17(v);
    } else if v <= 24 {
      LabelsFrom21(v);
    } else {
      LabelsFrom25(v);
    }
  }

  // The table checked entry by entry, in blocks small enough for the prover.

  /** The rendering of a two-digit number. */
  lemma TwoDigits(n: nat)
    requires 10 <= n < 100
    ensures Decimal.NatToString(n) == [Decimal.DigitChar(n / 10), Decimal.DigitChar(n % 10)]
  {
  }

  lemma LabelsFromMinus32(v: int)
    requires -32 <= v <= -29
    ensures SigsStrings[v + 32] == RatioLabel(v)
  {
    if v == -32 {
      assert SigsStrings[0] == "/32";
      assert RatioLabel(-32) == "/32";
    } else if v == -31 {
      assert SigsStrings[1] == "/31";
      assert RatioLabel(-31) == "/31";
    } else if v == -30 {
      assert SigsStrings[2] == "/30";
      assert RatioLabel(-30) == "/30";
    } else if v == -29 {
      assert SigsStrings[3] == "/29";
      assert RatioLabel(-29) == "/29";
    }
  }

  lemma LabelsFromMinus28(v: int)
    requires -28 <= v <= -25
    ensures SigsStrings[v + 32] == RatioLabel(v)
  {
    if v == -28 {
      assert SigsStrings[4] == "/28";
      assert RatioLabel(-28) == "/28";
    } else if v == -27 {
      assert SigsStrings[5] == "/27";
      assert RatioLabel(-27) == "/27";
    } else if v == -26 {
      assert SigsStrings[6] == "/26";
      assert RatioLabel(-26) == "/26";
    } else if v == -25 {
      assert SigsStrings[7] == "/25";
      assert RatioLabel(-25) == "/25";
    }
  }

  lemma LabelsFromMinus24(v: int)
    requires -24 <= v <= -21
    ensures SigsStrings[v + 32] == RatioLabel(v)
  {
    if v == -24 {
      assert SigsStrings[8] == "/24";
      assert RatioLabel(-24) == "/24";
    } else if v == -23 {
      assert SigsStrings[9] == "/23";
      assert RatioLabel(-23) == "/23";
    } else if v == -22 {
      assert SigsStrings[10] == "/22";
      assert RatioLabel(-22) == "/22";
    } else if v == -21 {
      assert SigsStrings[11] == "/21";
      assert RatioLabel(-21) == "/21";
    }
  }

  lemma LabelsFromMinus20(v: int)
    requires -20 <= v <= -17
    ensures SigsStrings[v + 32] == RatioLabel(v)
  {
    if v == -20 {
      assert SigsStrings[12] == "/20";
      assert RatioLabel(-20) == "/20";
    } else if v == -19 {
      assert SigsStrings[13] == "/19";
      assert RatioLabel(-19) == "/19";
    } else if v == -18 {
      assert SigsStrings[14] == "/18";
      assert RatioLabel(-18) == "/18";
    } else if v == -17 {
      assert SigsStrings[15] == "/17";
      assert RatioLabel(-17) == "/17";
    }
  }

  lemma LabelsFromMinus16(v: int)
    requires -16 <= v <= -13
    ensures SigsStrings[v + 32] == RatioLabel(v)
  {
    if v == -16 {
      assert SigsStrings[16] == "/16";
      assert RatioLabel(-16) == "/16";
    } else if v == -15 {
      assert SigsStrings[17] == "/15";
      assert RatioLabel(-15) == "/15";
    } else if v == -14 {
      assert SigsStrings[18] == "/14";
      assert RatioLabel(-14) == "/14";
    } else if v == -13 {
      assert SigsStrings[19] == "/13";
      assert RatioLabel(-13) == "/13";
    }
  }

  lemma LabelsFromMinus12(v: int)
    requires -12 <= v <= -9
    ensures SigsStrings[v + 32] == RatioLabel(v)
  {
    if v == -12 {
      assert SigsStrings[20] == "/12";
      assert RatioLabel(-12) == "/12";
    } else if v == -11 {
      assert SigsStrings[21] == "/11";
      assert RatioLabel(-11) == "/11";
    } else if v == -10 {
      assert SigsStrings[22] == "/10";
      assert RatioLabel(-10) == "/10";
    } else if v == -9 {
      assert SigsStrings[23] == "/9";
      assert RatioLabel(-9) == "/9";
    }
  }

  lemma LabelsFromMinus8(v: int)
    requires -8 <= v <= -1
    ensures SigsStrings[v + 32] == RatioLabel(v)
  {
    if v == -8 {
      assert SigsStrings[24] == "/8";
      assert RatioLabel(-8) == "/8";
    } else if v == -7 {
      assert SigsStrings[25] == "/7";
      assert RatioLabel(-7) == "/7";
    } else if v == -6 {
      assert SigsStrings[26] == "/6";
      assert RatioLabel(-6) == "/6";
    } else if v == -5 {
      assert SigsStrings[27] == "/5";
      assert RatioLabel(-5) == "/5";
    } else if v == -4 {
      assert SigsStrings[28] == "/4";
      assert RatioLabel(-4) == "/4";
    } else if v == -3 {
      assert SigsStrings[29] == "/3";
      assert RatioLabel(-3) == "/3";
    } else if v == -2 {
      assert SigsStrings[30] == "/2";
      assert RatioLabel(-2) == "/2";
    } else if v == -1 {
      assert SigsStrings[31] == "/1";
      assert RatioLabel(-1) == "/1";
    }
  }

  lemma LabelsFrom1(v: int)
    requires 1 <= v <= 4
    ensures SigsStrings[v + 32] == RatioLabel(v)
  {
    if v == 1 {
      assert SigsStrings[33] == "X1";
      assert RatioLabel(1) == "X1";
    } else if v == 2 {
      assert SigsStrings[34] == "X2";
      assert RatioLabel(2) == "X2";
    } else if v == 3 {
      assert SigsStrings[35] == "X3";
      assert RatioLabel(3) == "X3";
    } else if v == 4 {
      assert SigsStrings[36] == "X4";
      assert RatioLabel(4) == "X4";
    }
  }

  lemma LabelsFrom5(v: int)
    requires 5 <= v <= 8
    ensures SigsStrings[v + 32] == RatioLabel(v)
  {
    if v == 5 {
      assert SigsStrings[37] == "X5";
      assert RatioLabel(5) == "X5";
    } else if v == 6 {
      assert SigsStrings[38] == "X6";
      assert RatioLabel(6) == "X6";
    } else if v == 7 {
      assert SigsStrings[39] == "X7";
      assert RatioLabel(7) == "X7";
    } else if v == 8 {
      assert SigsStrings[40] == "X8";
      assert RatioLabel(8) == "X8";
    }
  }

  lemma LabelsFrom9(v: int)
    requires 9 <= v <= 12
    ensures SigsStrings[v + 32] == RatioLabel(v)
  {
    if v >= 10 {
      TwoDigits(v);
    }
    if v == 9 {
      assert SigsStrings[41] == "X9";
      assert RatioLabel(9) == "X9";
    } else if v == 10 {
      assert SigsStrings[42] == "X10";
      assert RatioLabel(10) == "X10";
    } else if v == 11 {
      assert SigsStrings[43] == "X11";
      assert RatioLabel(11) == "X11";
    } else if v == 12 {
      assert SigsStrings[44] == "X12";
      assert RatioLabel(12) == "X12";
    }
  }

  lemma LabelsFrom13(v: int)
    requires 13 <= v <= 16
    ensures SigsStrings[v + 32] == RatioLabel(v)
  {
    TwoDigits(v);
    if v == 13 {
      assert SigsStrings[45] == "X13";
      assert RatioLabel(13) == "X13";
    } else if v == 14 {
      assert SigsStrings[46] == "X14";
      assert RatioLabel(14) == "X14";
    } else if v == 15 {
      assert SigsStrings[47] == "X15";
      assert RatioLabel(15) == "X15";
    } else if v == 16 {
      assert SigsStrings[48] == "X16";
      assert RatioLabel(16) == "X16";
    }
  }

  lemma LabelsFrom17(v: int)
    requires 17 <= v <= 20
    ensures SigsStrings[v + 32] == RatioLabel(v)
  {
    TwoDigits(v);
    if v == 17 {
      assert SigsStrings[49] == "X17";
      assert RatioLabel(17) == "X17";
    } else if v == 18 {
      assert SigsStrings[50] == "X18";
      assert RatioLabel(18) == "X18";
    } else if v == 19 {
      assert SigsStrings[51] == "X19";
      assert RatioLabel(19) == "X19";
    } else if v == 20 {
      assert SigsStrings[52] == "X20";
      assert RatioLabel(20) == "X20";
    }
  }

  lemma LabelsFrom21(v: int)
    requires 21 <= v <= 24
    ensures SigsStrings[v + 32] == RatioLabel(v)
  {
    TwoDigits(v);
    if v == 21 {
      assert SigsStrings[53] == "X21";
      assert RatioLabel(21) == "X21";
    } else if v == 22 {
      assert SigsStrings[54] == "X22";
      assert RatioLabel(22) == "X22";
    } else if v == 23 {
      assert SigsStrings[55] == "X23";
      assert RatioLabel(23) == "X23";
    } else if v == 24 {
      assert SigsStrings[56] == "X24";
      assert RatioLabel(24) == "X24";
    }
  }

  lemma LabelsFrom25(v: int)
    requires 25 <= v <= 32
    ensures SigsStrings[v + 32] == RatioLabel(v)
  {
    TwoDigits(v);
    if v == 25 {
      assert SigsStrings[57] == "X25";
      assert RatioLabel(25) == "X25";
    } else if v == 26 {
      assert SigsStrings[58] == "X26";
      assert RatioLabel(26) == "X26";
    } else if v == 27 {
      assert SigsStrings[59] == "X27";
      assert RatioLabel(27) == "X27";
    } else if v == 28 {
      assert SigsStrings[60] == "X28";
      assert RatioLabel(28) == "X28";
    } else if v == 29 {
      assert SigsStrings[61] == "X29";
      assert RatioLabel(29) == "X29";
    } else if v == 30 {
      assert SigsStrings[62] == "X30";
      assert RatioLabel(30) == "X30";
    } else if v == 31 {
      assert SigsStrings[63] == "X31";
      assert RatioLabel(31) == "X31";
    } else if v == 32 {
      assert SigsStrings[64] == "X32";
      assert RatioLabel(32) == "X32";
    }
  }


  // ---------------------------------------------------------------------------------------
  // One mute
  // ---------------------------------------------------------------------------------------

  /** A float converted to an integer type: the fraction is dropped, rounding toward zero. */
  function Trunc(x: real): (n: int)
    ensures x >= 0.0 ==> 0 <= n && n as real <= x < n as real + 1.0
    ensures x < 0.0 ==> n <= 0 && n as real - 1.0 < x <= n as real
    ensures x >= 0.0 && x == x.Floor as real ==> n as real == x
  {
    if x >= 0.0 then x.Floor else -((-x).Floor)
  }

  /** `math::clamp`: the upper bound first, then the lower one. */
  function Clamp(x: real, lo: real, hi: real): (r: real)
    ensures lo <= hi ==> lo <= r <= hi
    ensures lo <= x <= hi ==> r == x
    ensures x < lo ==> r == lo
    ensures lo <= hi < x ==> r == hi
  {
    var upper := if x < hi then x else hi;
    if upper < lo then lo else upper
  }

  /** How far below the ratio switch a random offset may reach: never past -32. */
  function RangeLeftLimit(rawSig: int): real
  {
    32.0 - (if rawSig < 0 then (-rawSig) as real else 0.0)
  }

  /** How far above the ratio switch a random offset may reach: never past 32. */
  function RangeRightLimit(rawSig: int): real
  {
    32.0 - (if rawSig > 0 then rawSig as real else 0.0)
  }

  /**
   * The clamped ratio ranges keep every offset the mute may draw inside the switch's own
   * range: the ratio plus the offset stays between -32 and 32.
   */
  lemma RangeKeepsRatioInBounds(rawSig: int, left: real, right: real, offset: int)
    requires -32 <= rawSig <= 32
    requires -Trunc(Clamp(left, 0.0, RangeLeftLimit(rawSig))) <= offset
    requires offset <= Trunc(Clamp(right, 0.0, RangeRightLimit(rawSig)))
    ensures 0.0 <= Clamp(left, 0.0, RangeLeftLimit(rawSig)) <= RangeLeftLimit(rawSig)
    ensures 0.0 <= Clamp(right, 0.0, RangeRightLimit(rawSig)) <= RangeRightLimit(rawSig)
    ensures -32 <= rawSig + offset <= 32
  {
    var l := Clamp(left, 0.0, RangeLeftLimit(rawSig));
    var r := Clamp(right, 0.0, RangeRightLimit(rawSig));
    assert Trunc(l) as real <= l;
    assert Trunc(r) as real <= r;
  }

  /** Whether this sample is a swap point: the clock edge, a reset, or at once for an immediate ratio. */
  predicate ClockHit(timeSignature: int, phaseHit: bool, resetThisTick: bool, armed: bool)
  {
    (timeSignature != 0 && phaseHit) || resetThisTick || (armed && timeSignature == 0)
  }

  /** How fast a soft transition fades, per second: faster for higher multiples. */
  function FadeSpeed(timeSignature: int): (speed: real)
    ensures speed >= 25.0
  {
    if timeSignature > 0 then 25.0 * timeSignature as real else 25.0
  }

  /**
   * The volume after one sample: at once to 0 or 1 without a soft transition, otherwise a
   * fade toward the target by the elapsed time times the fade speed, kept inside [0, 1].
   */
  function NextVolume(volume: real, muted: bool, soft: bool, dt: real, timeSignature: int): (v: real)
    ensures 0.0 <= v <= 1.0
    ensures !soft ==> v == (if muted then 0.0 else 1.0)
    ensures soft && dt >= 0.0 && 0.0 <= volume <= 1.0 && muted ==> v <= volume
    ensures soft && dt >= 0.0 && 0.0 <= volume <= 1.0 && !muted ==> volume <= v
    ensures soft && dt >= 0.0 && 0.0 <= volume <= 1.0 && muted ==> v == 0.0 || v <= volume - dt * 25.0
    ensures soft && dt >= 0.0 && 0.0 <= volume <= 1.0 && !muted ==> v == 1.0 || v >= volume + dt * 25.0
  {
    if !soft then (if muted then 0.0 else 1.0)
    else
      var step := dt * FadeSpeed(timeSignature);
      FadeStepAtLeast(dt, timeSignature);
      Clamp(volume + (if muted then -step else step), 0.0, 1.0)
  }

  lemma FadeStepAtLeast(dt: real, timeSignature: int)
    ensures dt >= 0.0 ==> dt * FadeSpeed(timeSignature) >= dt * 25.0 >= 0.0
  {
    if dt >= 0.0 && timeSignature > 0 {
      assert dt * (timeSignature - 1) as real >= 0.0;
      assert dt * FadeSpeed(timeSignature) == dt * 25.0 + 25.0 * (dt * (timeSignature - 1) as real);
    }
  }

  /** A value in [0, 1] reached by a fade of at least `gap` per sample, in `n` samples. */
  function Fade(volume: real, muted: bool, dt: real, timeSignature: int, n: nat): (v: real)
  {
    if n == 0 then volume else NextVolume(Fade(volume, muted, dt, timeSignature, n - 1), muted, true, dt, timeSignature)
  }

  /** A soft transition reaches its target once the samples cover a full fade of 1 / (25 dt). */
  lemma FadeArrives(volume: real, muted: bool, dt: real, timeSignature: int, n: nat)
    requires 0.0 <= volume <= 1.0 && dt > 0.0
    requires n as real * (dt * 25.0) >= 1.0
    ensures Fade(volume, muted, dt, timeSignature, n) == (if muted then 0.0 else 1.0)
  {
    FadeProgress(volume, muted, dt, timeSignature, n);
    Covered(n, dt * 25.0);
    assert Distance(n, dt * 25.0) >= 1.0;
  }

  /** `n` steps of `g` cover `n * g`. */
  lemma {:induction false} Covered(n: nat, g: real)
    ensures Distance(n, g) == n as real * g
  {
    if n > 0 {
      Covered(n - 1, g);
    }
  }

  function Distance(n: nat, g: real): real
  {
    if n == 0 then 0.0 else Distance(n - 1, g) + g
  }

  /** After `n` samples a fade has covered `n` steps of at least 25 dt each, or has arrived. */
  lemma {:induction false} FadeProgress(volume: real, muted: bool, dt: real, timeSignature: int, n: nat)
    requires 0.0 <= volume <= 1.0 && dt > 0.0
    ensures 0.0 <= Fade(volume, muted, dt, timeSignature, n) <= 1.0
    ensures muted ==> (Fade(volume, muted, dt, timeSignature, n) == 0.0 ||
                       Fade(volume, muted, dt, timeSignature, n) <= volume - Distance(n, dt * 25.0))
    ensures !muted ==> (Fade(volume, muted, dt, timeSignature, n) == 1.0 ||
                        Fade(volume, muted, dt, timeSignature, n) >= volume + Distance(n, dt * 25.0))
  {
    if n > 0 {
      FadeProgress(volume, muted, dt, timeSignature, n - 1);
      var prev := Fade(volume, muted, dt, timeSignature, n - 1);
      var next := NextVolume(prev, muted, true, dt, timeSignature);
      assert next == Fade(volume, muted, dt, timeSignature, n);
    }
  }

  /** `Mute::toJson`: the ratio ranges are stored as integers, so their fractions are dropped. */
  function SaveMute(muteState: bool, autoPress: bool, lightOpacity: real, softTransition: bool,
                    ratioRangeLeft: real, ratioRangeRight: real): Json.Json
  {
    Json.JObject([
      Json.Field("muteState", Json.JBool(muteState)),
      Json.Field("autoPress", Json.JBool(autoPress)),
      Json.Field("lightOpacity", Json.JReal(lightOpacity)),
      Json.Field("softTransition", Json.JBool(softTransition)),
      Json.Field("ratioRangeLeft", Json.JInt(Trunc(ratioRangeLeft))),
      Json.Field("ratioRangeRight", Json.JInt(Trunc(ratioRangeRight)))])
  }

  /** A boolean field as `Mute::fromJson` reads it; a missing key keeps the current value. */
  function LoadBool(j: Json.Json, key: string, current: bool): bool
  {
    match Json.Get(j, key)
    case None => current
    case Some(v) => Json.IsTrue(v)
  }

  function LoadReal(j: Json.Json, key: string, current: real): real
  {
    match Json.Get(j, key)
    case None => current
    case Some(v) => Json.RealValue(v)
  }

  /** An integer field read into a float. */
  function LoadInteger(j: Json.Json, key: string, current: real): real
  {
    match Json.Get(j, key)
    case None => current
    case Some(v) => Json.IntegerValue(v) as real
  }

  /** Every key of a saved mute finds the value stored under it. */
  lemma SavedMuteFields(muteState: bool, autoPress: bool, lightOpacity: real, softTransition: bool,
                        left: real, right: real)
    ensures var j := SaveMute(muteState, autoPress, lightOpacity, softTransition, left, right);
      Json.Get(j, "muteState") == Some(Json.JBool(muteState)) &&
      Json.Get(j, "autoPress") == Some(Json.JBool(autoPress)) &&
      Json.Get(j, "lightOpacity") == Some(Json.JReal(lightOpacity)) &&
      Json.Get(j, "softTransition") == Some(Json.JBool(softTransition)) &&
      Json.Get(j, "ratioRangeLeft") == Some(Json.JInt(Trunc(left))) &&
      Json.Get(j, "ratioRangeRight") == Some(Json.JInt(Trunc(right)))
  {
    var fs := SaveMute(muteState, autoPress, lightOpacity, softTransition, left, right).fields;
    assert "autoPress"[0] != "muteState"[0];
    assert "lightOpacity"[0] !in {"muteState"[0], "autoPress"[0]};
    assert "softTransition"[0] !in {"muteState"[0], "autoPress"[0], "lightOpacity"[0]};
    assert "ratioRangeLeft"[0] !in {"muteState"[0], "autoPress"[0], "lightOpacity"[0], "softTransition"[0]};
    assert "ratioRangeRight"[0] !in {"muteState"[0], "autoPress"[0], "lightOpacity"[0], "softTransition"[0]};
    assert |"ratioRangeRight"| != |"ratioRangeLeft"|;
    Json.GetOfSix(fs, "muteState");
    Json.GetOfSix(fs, "autoPress");
    Json.GetOfSix(fs, "lightOpacity");
    Json.GetOfSix(fs, "softTransition");
    Json.GetOfSix(fs, "ratioRangeLeft");
    Json.GetOfSix(fs, "ratioRangeRight");
  }

  /**
   * Saving a mute and loading it back restores its switches and light opacity exactly and its
   * ratio ranges with the fraction dropped (see `Trunc`: exact for whole ranges).
   */
  lemma MuteJsonRoundTrip(muteState: bool, autoPress: bool, lightOpacity: real, softTransition: bool,
                          left: real, right: real, m: bool, a: bool, o: real, s: bool, l: real, r: real)
    ensures var j := SaveMute(muteState, autoPress, lightOpacity, softTransition, left, right);
      LoadBool(j, "muteState", m) == muteState && LoadBool(j, "autoPress", a) == autoPress &&
      LoadReal(j, "lightOpacity", o) == lightOpacity && LoadBool(j, "softTransition", s) == softTransition &&
      LoadInteger(j, "ratioRangeLeft", l) == Trunc(left) as real &&
      LoadInteger(j, "ratioRangeRight", r) == Trunc(right) as real
  {
    SavedMuteFields(muteState, autoPress, lightOpacity, softTransition, left, right);
  }

  /** `Mute`: one mute channel and the state it keeps between samples. */
  class Mute {
    var paramId: int
    var timeSignature: int
    var signatureOffset: int
    var muteState: bool
    var shouldSwap: bool
    // The mute button and the auto-press switch change-tracked: the value, and the value the
    // last check for a change saw.
    var button: bool
    var buttonSeen: bool
    var autoPress: bool
    var autoPressSeen: bool
    var lightOpacity: real
    var softTransition: bool
    var ratioRangeLeft: real
    var ratioRangeRight: real
    var volume: real

    constructor (id: int)
      ensures paramId == id && timeSignature == 0 && signatureOffset == 0
      ensures !muteState && !shouldSwap && !button && !buttonSeen && !autoPress && !autoPressSeen
      ensures lightOpacity == 1.0 && softTransition && ratioRangeLeft == 0.0 && ratioRangeRight == 0.0
      ensures volume == 1.0
    {
      paramId := id;
      timeSignature, signatureOffset := 0, 0;
      muteState, shouldSwap := false, false;
      button, buttonSeen, autoPress, autoPressSeen := false, false, false, false;
      lightOpacity, softTransition := 1.0, true;
      ratioRangeLeft, ratioRangeRight := 0.0, 0.0;
      volume := 1.0;
    }

    /** Whether a swap is pending after this sample's button press. */
    static predicate Armed(shouldSwap: bool, pressed: bool, buttonSeen: bool)
    {
      shouldSwap != (pressed && !buttonSeen)
    }

    /**
     * `Mute::step` for one sample. The clock phase test is the input `phaseHit` (whether the
     * phase of this mute's ratio wrapped this sample); `offsetDraw` is the random offset drawn
     * in the allowed range; the messages this mute sends are returned in order.
     */
    method Step(sender: nat, rawSig: int, pressed: bool, phaseHit: bool, resetThisTick: bool,
                deltaTime: real, offsetDraw: int) returns (sent: seq<ExpanderMessage>)
      requires -32 <= rawSig <= 32
      requires -Trunc(Clamp(ratioRangeLeft, 0.0, RangeLeftLimit(rawSig))) <= offsetDraw
      requires offsetDraw <= Trunc(Clamp(ratioRangeRight, 0.0, RangeRightLimit(rawSig)))
      modifies this`timeSignature, this`button, this`buttonSeen, this`shouldSwap, this`autoPressSeen
      modifies this`ratioRangeLeft, this`ratioRangeRight, this`muteState, this`signatureOffset, this`volume
      ensures timeSignature == rawSig + old(signatureOffset)
      ensures button == pressed && buttonSeen == pressed
      ensures autoPress == old(autoPress) && autoPressSeen == old(autoPress)
      ensures ratioRangeLeft == Clamp(old(ratioRangeLeft), 0.0, RangeLeftLimit(rawSig))
      ensures ratioRangeRight == Clamp(old(ratioRangeRight), 0.0, RangeRightLimit(rawSig))
      ensures var armed := Armed(old(shouldSwap), pressed, old(buttonSeen));
        var hit := ClockHit(timeSignature, phaseHit, resetThisTick, armed);
        muteState == (old(muteState) != (armed && hit)) &&
        shouldSwap == ((armed && !hit) || (timeSignature != 0 && autoPress && hit)) &&
        signatureOffset == (if !(armed && hit) then old(signatureOffset)
                            else if ratioRangeLeft != 0.0 || ratioRangeRight != 0.0 then offsetDraw else 0)
      ensures -32 <= rawSig + signatureOffset <= 32 || signatureOffset == old(signatureOffset)
      ensures sent == (if pressed && !old(buttonSeen) then [ButtonMessage(sender, paramId)] else []) +
        (if old(autoPress) != old(autoPressSeen) then [ButtonAutoPress(sender, paramId, autoPress)] else [])
      ensures volume == NextVolume(old(volume), muteState, softTransition, deltaTime, timeSignature)
      ensures paramId == old(paramId) && lightOpacity == old(lightOpacity) && softTransition == old(softTransition)
    {
      sent := ReadControls(sender, rawSig, pressed);
      Settle(rawSig, phaseHit, resetThisTick, deltaTime, offsetDraw);
    }

    /** The first half of a sample: the effective ratio, the buttons and the ratio ranges. */
    method ReadControls(sender: nat, rawSig: int, pressed: bool) returns (sent: seq<ExpanderMessage>)
      requires -32 <= rawSig <= 32
      modifies this`timeSignature, this`button, this`buttonSeen, this`shouldSwap, this`autoPressSeen
      modifies this`ratioRangeLeft, this`ratioRangeRight
      ensures timeSignature == rawSig + signatureOffset
      ensures button == pressed && buttonSeen == pressed && autoPressSeen == autoPress
      ensures shouldSwap == Armed(old(shouldSwap), pressed, old(buttonSeen))
      ensures ratioRangeLeft == Clamp(old(ratioRangeLeft), 0.0, RangeLeftLimit(rawSig))
      ensures ratioRangeRight == Clamp(old(ratioRangeRight), 0.0, RangeRightLimit(rawSig))
      ensures 0.0 <= ratioRangeLeft <= RangeLeftLimit(rawSig) && 0.0 <= ratioRangeRight <= RangeRightLimit(rawSig)
      ensures sent == (if pressed && !old(buttonSeen) then [ButtonMessage(sender, paramId)] else []) +
        (if autoPress != old(autoPressSeen) then [ButtonAutoPress(sender, paramId, autoPress)] else [])
    {
      timeSignature := rawSig + signatureOffset;
      sent := ReadButtons(sender, pressed);
      ClampRanges(rawSig);
    }

    /**
     * The second half of a sample: whether this is a swap point, the swap itself, and the
     * volume moving toward the mute state.
     */
    method Settle(rawSig: int, phaseHit: bool, resetThisTick: bool, deltaTime: real, offsetDraw: int)
      requires -32 <= rawSig <= 32
      requires 0.0 <= ratioRangeLeft <= RangeLeftLimit(rawSig) && 0.0 <= ratioRangeRight <= RangeRightLimit(rawSig)
      requires -Trunc(ratioRangeLeft) <= offsetDraw <= Trunc(ratioRangeRight)
      modifies this`muteState, this`shouldSwap, this`signatureOffset, this`volume
      ensures var hit := ClockHit(timeSignature, phaseHit, resetThisTick, old(shouldSwap));
        muteState == (old(muteState) != (old(shouldSwap) && hit)) &&
        shouldSwap == ((old(shouldSwap) && !hit) || (timeSignature != 0 && autoPress && hit)) &&
        signatureOffset == (if !(old(shouldSwap) && hit) then old(signatureOffset)
                            else if ratioRangeLeft != 0.0 || ratioRangeRight != 0.0 then offsetDraw else 0)
      ensures -32 <= rawSig + signatureOffset <= 32 || signatureOffset == old(signatureOffset)
      ensures volume == NextVolume(old(volume), muteState, softTransition, deltaTime, timeSignature)
    {
      var clockHit := timeSignature != 0 && phaseHit;
      if resetThisTick {
        clockHit := true;
      }
      if shouldSwap && timeSignature == 0 {
        clockHit := true;
      }
      SwapOnHit(rawSig, clockHit, offsetDraw);
      volume := NextVolume(volume, muteState, softTransition, deltaTime, timeSignature);
    }

    /** The button's rising edge toggles the pending swap; a changed auto-press switch is announced. */
    method ReadButtons(sender: nat, pressed: bool) returns (sent: seq<ExpanderMessage>)
      modifies this`button, this`buttonSeen, this`shouldSwap, this`autoPressSeen
      ensures button == pressed && buttonSeen == pressed && autoPressSeen == autoPress
      ensures shouldSwap == Armed(old(shouldSwap), pressed, old(buttonSeen))
      ensures sent == (if pressed && !old(buttonSeen) then [ButtonMessage(sender, paramId)] else []) +
        (if autoPress != old(autoPressSeen) then [ButtonAutoPress(sender, paramId, autoPress)] else [])
    {
      sent := [];
      var buttonDirty := pressed != buttonSeen;
      button, buttonSeen := pressed, pressed;
      if buttonDirty && button {
        shouldSwap := !shouldSwap;
        sent := sent + [ButtonMessage(sender, paramId)];
      }
      var autoDirty := autoPress != autoPressSeen;
      autoPressSeen := autoPress;
      if autoDirty {
        sent := sent + [ButtonAutoPress(sender, paramId, autoPress)];
      }
    }

    /** Keeps the ratio ranges inside what the ratio switch allows. */
    method ClampRanges(rawSig: int)
      requires -32 <= rawSig <= 32
      modifies this`ratioRangeLeft, this`ratioRangeRight
      ensures ratioRangeLeft == Clamp(old(ratioRangeLeft), 0.0, RangeLeftLimit(rawSig))
      ensures ratioRangeRight == Clamp(old(ratioRangeRight), 0.0, RangeRightLimit(rawSig))
      ensures 0.0 <= ratioRangeLeft <= RangeLeftLimit(rawSig) && 0.0 <= ratioRangeRight <= RangeRightLimit(rawSig)
    {
      ratioRangeLeft := Clamp(ratioRangeLeft, 0.0, RangeLeftLimit(rawSig));
      ratioRangeRight := Clamp(ratioRangeRight, 0.0, RangeRightLimit(rawSig));
    }

    /**
     * On a swap point a pending swap flips the mute and draws a new offset from the ranges;
     * with auto-press on, the next swap is armed at once.
     */
    method SwapOnHit(rawSig: int, hit: bool, offsetDraw: int)
      requires -32 <= rawSig <= 32
      requires 0.0 <= ratioRangeLeft <= RangeLeftLimit(rawSig) && 0.0 <= ratioRangeRight <= RangeRightLimit(rawSig)
      requires -Trunc(ratioRangeLeft) <= offsetDraw <= Trunc(ratioRangeRight)
      modifies this`muteState, this`shouldSwap, this`signatureOffset
      ensures muteState == (old(muteState) != (old(shouldSwap) && hit))
      ensures shouldSwap == ((old(shouldSwap) && !hit) || (timeSignature != 0 && autoPress && hit))
      ensures signatureOffset == (if !(old(shouldSwap) && hit) then old(signatureOffset)
                                  else if ratioRangeLeft != 0.0 || ratioRangeRight != 0.0 then offsetDraw else 0)
      ensures -32 <= rawSig + signatureOffset <= 32 || signatureOffset == old(signatureOffset)
    {
      if shouldSwap && hit {
        muteState := !muteState;
        shouldSwap := false;
        if ratioRangeLeft != 0.0 || ratioRangeRight != 0.0 {
          RangeKeepsRatioInBounds(rawSig, ratioRangeLeft, ratioRangeRight, offsetDraw);
          signatureOffset := offsetDraw;
        } else {
          signatureOffset := 0;
        }
      }
      if timeSignature != 0 && autoPress && hit {
        shouldSwap := true;
      }
    }

    /** `Mute::toJson`. */
    function ToJson(): Json.Json
      reads this
    {
      SaveMute(muteState, autoPress, lightOpacity, softTransition, ratioRangeLeft, ratioRangeRight)
    }

    /**
     * `Mute::fromJson`: each key present overwrites its field; a changed auto-press switch is
     * announced to the controlled modules by the next `Step`.
     */
    method FromJson(j: Json.Json)
      modifies this`muteState, this`autoPress, this`lightOpacity, this`softTransition
      modifies this`ratioRangeLeft, this`ratioRangeRight
      ensures muteState == LoadBool(j, "muteState", old(muteState))
      ensures autoPress == LoadBool(j, "autoPress", old(autoPress))
      ensures lightOpacity == LoadReal(j, "lightOpacity", old(lightOpacity))
      ensures softTransition == LoadBool(j, "softTransition", old(softTransition))
      ensures ratioRangeLeft == LoadInteger(j, "ratioRangeLeft", old(ratioRangeLeft))
      ensures ratioRangeRight == LoadInteger(j, "ratioRangeRight", old(ratioRangeRight))
    {
      muteState, autoPress, lightOpacity, softTransition, ratioRangeLeft, ratioRangeRight :=
        LoadBool(j, "muteState", muteState), LoadBool(j, "autoPress", autoPress),
        LoadReal(j, "lightOpacity", lightOpacity), LoadBool(j, "softTransition", softTransition),
        LoadInteger(j, "ratioRangeLeft", ratioRangeLeft), LoadInteger(j, "ratioRangeRight", ratioRangeRight);
    }
  }

  // ---------------------------------------------------------------------------------------
  // The module: its message queue and clock state
  // ---------------------------------------------------------------------------------------

  /** What handling a message reads and changes: the mutes' two switches and the clock state. */
  datatype DrainState = DrainState(
    swaps: seq<bool>, autos: seq<bool>, clockTime: real, ticks: nat, subClockTime: real,
    ignoreClockTrigger: bool, outbox: seq<ExpanderMessage>)

  predicate WellFormed(st: DrainState)
  {
    |st.swaps| == MUTE_COUNT && |st.autos| == MUTE_COUNT
  }

  /** A button message names one of the eight mutes. */
  predicate Addressed(msg: ExpanderMessage)
  {
    (msg.kind == OnButton || msg.kind == OnButtonAuto) ==> 0 <= msg.buttonId < MUTE_COUNT
  }

  predicate AllAddressed(msgs: seq<ExpanderMessage>)
  {
    forall i :: 0 <= i < |msgs| ==> Addressed(msgs[i])
  }

  /**
   * One message as `processMessages` handles it: a reset restarts the tick count and is passed
   * on; a button message toggles that mute's pending swap; an auto-press message sets that
   * mute's switch; a clock message, unless the own clock is patched, takes over the clock
   * length and, when it carries one, the tick count. Nothing else changes.
   */
  function Handle(self: nat, clockConnected: bool, st: DrainState, msg: ExpanderMessage): (r: DrainState)
    requires WellFormed(st) && Addressed(msg)
    ensures WellFormed(r)
    ensures msg.kind != OnButton ==> r.swaps == st.swaps
    ensures msg.kind != OnButtonAuto ==> r.autos == st.autos
    ensures msg.kind == OnButton ==>
      forall k :: 0 <= k < MUTE_COUNT ==> r.swaps[k] == (st.swaps[k] != (k == msg.buttonId))
    ensures msg.kind == OnButtonAuto ==>
      forall k :: 0 <= k < MUTE_COUNT ==> r.autos[k] == (if k == msg.buttonId then msg.autoPress else st.autos[k])
    ensures msg.kind != OnClock || clockConnected ==> r.clockTime == st.clockTime
    ensures msg.kind == OnClock && !clockConnected ==> r.clockTime == msg.time
    ensures msg.kind == OnReset ==> r.ticks == 0 && r.subClockTime == 0.0 && r.ignoreClockTrigger
    ensures msg.kind == OnReset ==> r.outbox == st.outbox + [ResetMessage(self)]
    ensures msg.kind != OnReset ==> r.outbox == st.outbox && r.ignoreClockTrigger == st.ignoreClockTrigger
    ensures msg.kind == OnClock && !clockConnected && msg.clockTicksSinceReset != UINT64_MAX ==>
      r.ticks == msg.clockTicksSinceReset && r.subClockTime == 0.0
    ensures !(msg.kind == OnReset || (msg.kind == OnClock && !clockConnected && msg.clockTicksSinceReset != UINT64_MAX)) ==>
      r.ticks == st.ticks && r.subClockTime == st.subClockTime
  {
    match msg.kind
    case OnReset =>
      st.(ticks := 0, subClockTime := 0.0, ignoreClockTrigger := true, outbox := st.outbox + [ResetMessage(self)])
    case OnButton => st.(swaps := st.swaps[msg.buttonId := !st.swaps[msg.buttonId]])
    case OnButtonAuto => st.(autos := st.autos[msg.buttonId := msg.autoPress])
    case OnClock =>
      if clockConnected then st
      else if msg.clockTicksSinceReset != UINT64_MAX then
        st.(clockTime := msg.time, ticks := msg.clockTicksSinceReset, subClockTime := 0.0)
      else st.(clockTime := msg.time)
  }

  /** The messages handled in order. */
  function HandleAll(self: nat, clockConnected: bool, st: DrainState, msgs: seq<ExpanderMessage>): (r: DrainState)
    requires WellFormed(st) && AllAddressed(msgs)
    ensures WellFormed(r)
    decreases |msgs|
  {
    if msgs == [] then st
    else Handle(self, clockConnected, HandleAll(self, clockConnected, st, msgs[..|msgs| - 1]), msgs[|msgs| - 1])
  }

  /** The number of button messages for mute `k` among `msgs`. */
  function Presses(msgs: seq<ExpanderMessage>, k: int): nat
  {
    if msgs == [] then 0
    else Presses(msgs[..|msgs| - 1], k) + (if msgs[|msgs| - 1].kind == OnButton && msgs[|msgs| - 1].buttonId == k then 1 else 0)
  }

  /** A mute's pending swap ends up flipped exactly when an odd number of its button messages arrived. */
  lemma {:induction false} ButtonParity(self: nat, clockConnected: bool, st: DrainState, msgs: seq<ExpanderMessage>, k: nat)
    requires WellFormed(st) && AllAddressed(msgs) && k < MUTE_COUNT
    ensures HandleAll(self, clockConnected, st, msgs).swaps[k] == (st.swaps[k] != (Presses(msgs, k) % 2 == 1))
    decreases |msgs|
  {
    if msgs != [] {
      ButtonParity(self, clockConnected, st, msgs[..|msgs| - 1], k);
    }
  }

  /** While the own clock is patched, no message changes the clock length. */
  lemma {:induction false} ClockKeptWhileConnected(self: nat, st: DrainState, msgs: seq<ExpanderMessage>)
    requires WellFormed(st) && AllAddressed(msgs)
    ensures HandleAll(self, true, st, msgs).clockTime == st.clockTime
    decreases |msgs|
  {
    if msgs != [] {
      ClockKeptWhileConnected(self, st, msgs[..|msgs| - 1]);
    }
  }

  /** Each reset message handled is passed on once, in order; no other message is passed on. */
  lemma {:induction false} ResetsPassedOn(self: nat, clockConnected: bool, st: DrainState, msgs: seq<ExpanderMessage>)
    requires WellFormed(st) && AllAddressed(msgs)
    ensures HandleAll(self, clockConnected, st, msgs).outbox == st.outbox + ResetsOf(self, msgs)
    decreases |msgs|
  {
    if msgs != [] {
      ResetsPassedOn(self, clockConnected, st, msgs[..|msgs| - 1]);
    }
  }

  function ResetsOf(self: nat, msgs: seq<ExpanderMessage>): seq<ExpanderMessage>
  {
    if msgs == [] then []
    else ResetsOf(self, msgs[..|msgs| - 1]) + (if msgs[|msgs| - 1].kind == OnReset then [ResetMessage(self)] else [])
  }

  /**
   * One pass of the drain loop as written: a clock message met while the own clock is patched
   * is skipped without being removed from the queue.
   */
  function DrainPassAsWritten(self: nat, clockConnected: bool, st: DrainState, queue: seq<ExpanderMessage>):
    (r: (DrainState, seq<ExpanderMessage>))
    requires WellFormed(st) && queue != [] && Addressed(queue[0])
    ensures WellFormed(r.0) && (r.1 == queue || r.1 == queue[1..])
  {
    if queue[0].kind == OnClock && clockConnected then (st, queue)
    else (Handle(self, clockConnected, st, queue[0]), queue[1..])
  }

  /** The drain loop as written, run for at most `passes` passes or until the queue is empty. */
  function DrainAsWritten(self: nat, clockConnected: bool, st: DrainState, queue: seq<ExpanderMessage>, passes: nat):
    (r: (DrainState, seq<ExpanderMessage>))
    requires WellFormed(st) && AllAddressed(queue)
    decreases passes
  {
    if passes == 0 || queue == [] then (st, queue)
    else
      var next := DrainPassAsWritten(self, clockConnected, st, queue);
      assert AllAddressed(next.1) by {
        if next.1 != queue {
          assert forall i :: 0 <= i < |next.1| ==> next.1[i] == queue[i + 1];
        }
      }
      DrainAsWritten(self, clockConnected, next.0, next.1, passes - 1)
  }

  /**
   * With a clock message at the head of the queue and the own clock patched, the loop as
   * written never empties the queue: after any number of passes nothing has changed.
   */
  lemma {:induction false} DrainStallsAsWritten(self: nat, st: DrainState, queue: seq<ExpanderMessage>, passes: nat)
    requires WellFormed(st) && AllAddressed(queue)
    requires queue != [] && queue[0].kind == OnClock
    ensures DrainAsWritten(self, true, st, queue, passes) == (st, queue)
    decreases passes
  {
    if passes > 0 {
      DrainStallsAsWritten(self, st, queue, passes - 1);
    }
  }

  /** `SyncMute`: the module, its eight mutes, its message queue and its clock state. */
  class SyncMute {
    const id: nat
    var mutes: seq<Mute>
    var queue: seq<ExpanderMessage>
    /** The messages this module sent to the modules it controls, in order. */
    var outbox: seq<ExpanderMessage>
    var clockConnected: bool
    var clockTime: real
    var clockTicksSinceReset: nat
    var subClockTime: real
    var ignoreClockTrigger: bool

    ghost predicate Valid()
      reads this`mutes
    {
      |mutes| == MUTE_COUNT && forall i, j :: 0 <= i < j < |mutes| ==> mutes[i] != mutes[j]
    }

    /** The pending swap of each mute, in order. */
    ghost function Swaps(): (s: seq<bool>)
      reads this`mutes, mutes
      ensures |s| == |mutes|
    {
      var ms := mutes;
      seq(|ms|, k requires 0 <= k < |ms| reads ms => ms[k].shouldSwap)
    }

    /** The auto-press switch of each mute, in order. */
    ghost function Autos(): (s: seq<bool>)
      reads this`mutes, mutes
      ensures |s| == |mutes|
    {
      var ms := mutes;
      seq(|ms|, k requires 0 <= k < |ms| reads ms => ms[k].autoPress)
    }

    /** The part of the module that handling messages reads and changes. */
    ghost function State(): (st: DrainState)
      reads this`mutes, this`clockTime, this`clockTicksSinceReset, this`subClockTime, this`ignoreClockTrigger
      reads this`outbox, mutes
      requires Valid()
      ensures WellFormed(st)
    {
      DrainState(Swaps(), Autos(), clockTime, clockTicksSinceReset, subClockTime, ignoreClockTrigger, outbox)
    }

    /** Eight fresh mutes numbered 0 to 7, a half-second clock, and the reset of `onReset`. */
    constructor (id: nat, clockConnected: bool)
      ensures Valid() && this.id == id && this.clockConnected == clockConnected
      ensures forall k :: 0 <= k < MUTE_COUNT ==> fresh(mutes[k]) && mutes[k].paramId == k
      ensures forall k :: 0 <= k < MUTE_COUNT ==> !mutes[k].shouldSwap && !mutes[k].autoPress
      ensures queue == [] && outbox == [ResetMessage(id)]
      ensures clockTime == 0.5 && clockTicksSinceReset == 0 && subClockTime == 0.0 && ignoreClockTrigger
    {
      var ms: seq<Mute> := [];
      var k := 0;
      while k < MUTE_COUNT
        invariant 0 <= k <= MUTE_COUNT && |ms| == k
        invariant forall i :: 0 <= i < k ==> fresh(ms[i]) && ms[i].paramId == i && !ms[i].shouldSwap && !ms[i].autoPress
        invariant forall i, j :: 0 <= i < j < k ==> ms[i] != ms[j]
      {
        var m := new Mute(k);
        ms := ms + [m];
        k := k + 1;
      }
      this.id := id;
      mutes := ms;
      queue, outbox := [], [];
      this.clockConnected := clockConnected;
      clockTime, clockTicksSinceReset, subClockTime, ignoreClockTrigger := 0.5, 0, 0.0, false;
      new;
      OnReset();
    }

    /** `onReset`: restart the tick count, ignore the clock for a moment, and pass the reset on. */
    method OnReset()
      modifies this`clockTicksSinceReset, this`subClockTime, this`ignoreClockTrigger, this`outbox
      ensures clockTicksSinceReset == 0 && subClockTime == 0.0 && ignoreClockTrigger
      ensures outbox == old(outbox) + [ResetMessage(id)]
    {
      clockTicksSinceReset := 0;
      subClockTime := 0.0;
      ignoreClockTrigger := true;
      outbox := outbox + [ResetMessage(id)];
    }

    /**
     * `processMessages`: handle the queued messages in order until the queue is empty. Every
     * message is removed once handled, a skipped clock message included.
     */
    method ProcessMessages()
      requires Valid() && AllAddressed(queue)
      modifies this, mutes
      ensures Valid() && mutes == old(mutes) && clockConnected == old(clockConnected)
      ensures queue == []
      ensures State() == HandleAll(id, clockConnected, old(State()), old(queue))
    {
      ghost var st0 := State();
      ghost var q0 := queue;
      ghost var n := 0;
      while queue != []
        invariant Valid() && mutes == old(mutes) && clockConnected == old(clockConnected)
        invariant 0 <= n <= |q0| && queue == q0[n..]
        invariant State() == HandleAll(id, clockConnected, st0, q0[..n])
        decreases |queue|
      {
        assert q0[..n + 1][..n] == q0[..n];
        HandleFront();
        queue := queue[1..];
        n := n + 1;
      }
      assert q0[..n] == q0;
    }

    /** Handles the message at the head of the queue (the body of the drain loop). */
    method HandleFront()
      requires Valid() && queue != [] && Addressed(queue[0])
      modifies this`clockTime, this`clockTicksSinceReset, this`subClockTime, this`ignoreClockTrigger, this`outbox, mutes
      ensures Valid() && State() == Handle(id, clockConnected, old(State()), old(queue[0]))
    {
      var msg := queue[0];
      if msg.kind.OnReset? {
        OnReset();
      } else if msg.kind.OnButton? {
        ToggleSwap(msg.buttonId);
      } else if msg.kind.OnButtonAuto? {
        SetAutoPress(msg.buttonId, msg.autoPress);
      } else if !clockConnected {
        clockTime := msg.time;
        if msg.clockTicksSinceReset != UINT64_MAX {
          clockTicksSinceReset := msg.clockTicksSinceReset;
          subClockTime := 0.0;
        }
      }
    }

    /** A button message: the pending swap of mute `b` flips, nothing else changes. */
    method ToggleSwap(b: nat)
      requires Valid() && b < MUTE_COUNT
      modifies mutes[b]
      ensures Swaps() == old(Swaps())[b := !old(Swaps())[b]] && Autos() == old(Autos())
    {
      mutes[b].shouldSwap := !mutes[b].shouldSwap;
      assert forall k :: 0 <= k < |mutes| && k != b ==> mutes[k] != mutes[b];
    }

    /** An auto-press message: the switch of mute `b` takes `v`, nothing else changes. */
    method SetAutoPress(b: nat, v: bool)
      requires Valid() && b < MUTE_COUNT
      modifies mutes[b]
      ensures Autos() == old(Autos())[b := v] && Swaps() == old(Swaps())
    {
      mutes[b].autoPress := v;
      assert forall k :: 0 <= k < |mutes| && k != b ==> mutes[k] != mutes[b];
    }
  }
}
