/** What the steps of a run tell about its state: which saves were tried and succeeded, and what is stored of them. */
module History {
  import opened Wrappers
  import opened Bytes
  import opened Elements
  import opened Parser
  import opened Encoder
  import opened Rows
  import opened Session
  import Imei

  // ---------------------------------------------------------------- raw data

  /** What a move does to the raw saves: only a successful one leaves a row, and each happens at most once. */
  lemma MoveRaws(k: Conn, a: Action)
    requires Move(k, a).To?
    ensures var To(k', _, raws) := Move(k, a);
            if a.RunRaw? then
              a.index !in k.rawDone && k'.rawDone == k.rawDone + {a.index}
              && |raws| == (if a.stored then 1 else 0) && (a.stored ==> raws[0].index == a.index)
            else k'.rawDone == k.rawDone && raws == []
  {
    hide Parse, Imei.DecodeIMEI, Imei.EncodeIMEIToHex, Imei.HexEncode, Pad, MakePacket, RowsOf;
  }

  ghost predicate HasRaw(raws: seq<RawRow>, i: nat) {
    exists r <- raws :: r.index == i
  }

  lemma HasRawCat(a: seq<RawRow>, b: seq<RawRow>, i: nat)
    ensures HasRaw(a + b, i) <==> HasRaw(a, i) || HasRaw(b, i)
  {
  }

  /** Goroutine `i` of connection `c` has run. */
  predicate RawRun(steps: seq<Step>, c: nat, i: nat) {
    Act(c, RunRaw(i, true)) in steps || Act(c, RunRaw(i, false)) in steps
  }

  ghost predicate RawsTold(steps: seq<Step>, s: State, c: nat, i: nat) {
    && (HasRaw(RawsFor(s.rawLog, c), i) <==> Act(c, RunRaw(i, true)) in steps)
    && (RawRun(steps, c, i) <==> c in s.conns && i in s.conns[c].rawDone)
    && !(Act(c, RunRaw(i, true)) in steps && Act(c, RunRaw(i, false)) in steps)
  }

  lemma ApplyTells(steps: seq<Step>, s: State, step: Step, c: nat, i: nat)
    requires RawsTold(steps, s, c, i) && Apply(s, step).Some?
    requires c !in s.conns ==> RawsFor(s.rawLog, c) == []
    ensures RawsTold(steps + [step], Apply(s, step).value, c, i)
  {
    hide Move, RawsFor, HasRaw, TagRows;
    var s' := Apply(s, step).value;
    StepIn(steps, step, Act(c, RunRaw(i, true)));
    StepIn(steps, step, Act(c, RunRaw(i, false)));
    if step.Act? {
      if Move(s.conns[step.id], step.action).To? {
        var To(k, rows, raws) := Move(s.conns[step.id], step.action);
        MoveRaws(s.conns[step.id], step.action);
        RawsForCat(s.rawLog, step.id, raws, c);
        HasRawCat(RawsFor(s.rawLog, c), if step.id == c then raws else [], i);
        RawsHave(raws, i);
        RawsHave([], i);
      } else {
        NoRawCrashes(s.conns[step.id], step.action);
      }
    }
  }

  lemma StepIn(steps: seq<Step>, step: Step, other: Step)
    ensures other in steps + [step] <==> other in steps || other == step
  {
  }

  lemma NoRawCrashes(k: Conn, a: Action)
    requires Move(k, a) == Crash
    ensures !a.RunRaw? && !a.Save?
  {
    hide Parse, Imei.DecodeIMEI, Imei.EncodeIMEIToHex, Imei.HexEncode, Pad, MakePacket, RowsOf;
  }

  lemma RawsHave(raws: seq<RawRow>, i: nat)
    requires |raws| <= 1
    ensures HasRaw(raws, i) <==> |raws| == 1 && raws[0].index == i
  {
  }

  /**
   After every run, connection `c` has a raw row of goroutine `i` exactly when the run contains its successful
   save; and no goroutine saves twice, so one that failed leaves none.
   */
  lemma {:induction false} RawLogExact(steps: seq<Step>, c: nat, i: nat)
    requires Run(steps).Some?
    ensures var raws := RawsFor(Run(steps).value.rawLog, c);
            ((exists r <- raws :: r.index == i) <==> Act(c, RunRaw(i, true)) in steps)
            && (Act(c, RunRaw(i, false)) in steps ==> forall r <- raws :: r.index != i)
    ensures RawsTold(steps, Run(steps).value, c, i)
    decreases |steps|
  {
    hide Apply, Inv, RawsFor;
    if steps == [] {
      NoRaws(c);
    } else {
      var n := |steps| - 1;
      RawLogExact(steps[..n], c, i);
      RunKeeps(steps[..n]);
      if c !in Run(steps[..n]).value.conns {
        NothingBefore(Run(steps[..n]).value, c);
      }
      ApplyTells(steps[..n], Run(steps[..n]).value, steps[n], c, i);
      assert steps == steps[..n] + [steps[n]];
    }
  }

  lemma NoRaws(c: nat)
    ensures RawsFor([], c) == []
  {
  }

  lemma NothingBefore(s: State, c: nat)
    requires Inv(s) && c !in s.conns
    ensures RawsFor(s.rawLog, c) == []
  {
    hide ConnInv, RawsFor, RowsFor;
  }

  /** A goroutine that was started and has not run can run, and no other can. */
  lemma RawSaveEnabled(steps: seq<Step>, c: nat, i: nat, stored: bool)
    requires Run(steps).Some? && Run(steps).value.crashed.None? && c in Run(steps).value.conns
    ensures var k := Run(steps).value.conns[c];
            Run(steps + [Act(c, RunRaw(i, stored))]).Some? <==> i < k.spawned && i !in k.rawDone
  {
    hide Run, Inv, Move;
    RunKeeps(steps);
    RunNext(steps, Act(c, RunRaw(i, stored)));
    RawMoveEnabled(Run(steps).value, c, i, stored);
  }

  lemma RawMoveEnabled(s: State, c: nat, i: nat, stored: bool)
    requires Inv(s) && c in s.conns
    ensures Move(s.conns[c], RunRaw(i, stored)) != Crash
    ensures var k := s.conns[c]; Move(k, RunRaw(i, stored)).To? <==> i < k.spawned && i !in k.rawDone
  {
    hide Contents, Written, Kept, RawsKept, RowsFor, RawsFor, Imei.HexEncode, Pad, ClientMove, ReceiveMove, PacketMove;
    assert ConnInv(s.conns[c], RowsFor(s.table, c), RawsFor(s.rawLog, c));
  }

  // ---------------------------------------------------------------- packets

  /** How the saves of connection `c` went, in their order. */
  function SaveResults(steps: seq<Step>, c: nat): seq<bool> {
    if steps == [] then []
    else
      var last := steps[|steps| - 1];
      SaveResults(steps[..|steps| - 1], c)
      + if last.Act? && last.id == c && last.action.Save? then [last.action.ok] else []
  }

  lemma MoveVerdicts(k: Conn, a: Action)
    requires Move(k, a).To?
    ensures Move(k, a).conn.verdicts == k.verdicts + if a.Save? then [a.ok] else []
  {
    hide Parse, Imei.DecodeIMEI, Imei.EncodeIMEIToHex, Imei.HexEncode, Pad, MakePacket, RowsOf;
  }

  /** The verdicts kept in the state are those of the run. */
  lemma {:induction false} VerdictsExact(steps: seq<Step>, c: nat)
    requires Run(steps).Some?
    ensures if c in Run(steps).value.conns then Run(steps).value.conns[c].verdicts == SaveResults(steps, c)
            else SaveResults(steps, c) == []
    decreases |steps|
  {
    hide Move;
    if steps == [] {
    } else {
      var n := |steps| - 1;
      VerdictsExact(steps[..n], c);
      var s, step := Run(steps[..n]).value, steps[n];
      if step.Act? && step.id == c {
        if Move(s.conns[c], step.action).To? {
          MoveVerdicts(s.conns[c], step.action);
        } else {
          NoRawCrashes(s.conns[c], step.action);
        }
      }
    }
  }

  lemma {:induction false} SavedUnlessFailed(steps: seq<Step>, c: nat)
    ensures AllSaved(SaveResults(steps, c)) <==> Act(c, Save(false)) !in steps
    decreases |steps|
  {
    if steps == [] {
    } else {
      var n := |steps| - 1;
      var last := steps[n];
      SavedUnlessFailed(steps[..n], c);
      assert steps == steps[..n] + [last];
      StepIn(steps[..n], last, Act(c, Save(false)));
      var more := if last.Act? && last.id == c && last.action.Save? then [last.action.ok] else [];
      AllSavedCat(SaveResults(steps[..n], c), more);
      assert more == [] || AllSaved(more) == more[0];
    }
  }

  lemma AllSavedCat(a: seq<bool>, b: seq<bool>)
    ensures AllSaved(a + b) <==> AllSaved(a) && AllSaved(b)
  {
    assert forall i | 0 <= i < |a| :: (a + b)[i] == a[i];
    assert forall i | 0 <= i < |b| :: (a + b)[|a| + i] == b[i];
  }

  /** The table has every packet of a device between its calls exactly as sent, in every run whose saves all work. */
  lemma AllStored(steps: seq<Step>, c: nat)
    requires Run(steps).Some? && c in Run(steps).value.conns && Act(c, Save(false)) !in steps
    requires var client := Run(steps).value.conns[c].client; client.Simulator? && client.stage == Ready
    ensures var s := Run(steps).value;
            var client := s.conns[c].client;
            RowsFor(s.table, c) == SentRows(client.batches, client.imei)
  {
    hide Run, RowsFor, SentRows, Kept, SaveResults, Parse, Pad, MakePacket, ReceivedAll, Imei.DecodeIMEI;
    EndToEnd(steps, c);
    VerdictsExact(steps, c);
    SavedUnlessFailed(steps, c);
    var batches := Run(steps).value.conns[c].client.batches;
    assert batches[..|batches|] == batches;
  }

  // ---------------------------------------------------------------- sessions exist

  /** The device of connection 0 has sent `batches`, nothing has failed, and it is about to make its next call. */
  ghost predicate Sent(steps: seq<Step>, imei: seq<uint8>, batches: seq<seq<AvlData>>) {
    && Run(steps).Some? && Run(steps).value.crashed.None? && 0 in Run(steps).value.conns
    && Act(0, Save(false)) !in steps
    && var k := Run(steps).value.conns[0];
       k.client.Simulator? && k.client.imei == imei && k.client.batches == batches && k.client.stage == Ready
       && Serving(k)
  }

  lemma AfterCall(steps: seq<Step>, imei: seq<uint8>, batches: seq<seq<AvlData>>) returns (all: seq<Step>)
    requires Run(steps).Some? && Run(steps).value.crashed.None? && 0 in Run(steps).value.conns
    requires Act(0, Save(false)) !in steps
    requires var k := Run(steps).value.conns[0];
             Waiting(k) && Serving(k) && k.client.imei == imei && k.client.batches == batches
    ensures Sent(all, imei, batches)
  {
    hide Run;
    var more := CallCompletes(steps, 0);
    all := steps + more;
  }

  lemma DeviceConnects(imei: seq<uint8>) returns (steps: seq<Step>)
    requires |imei| == 15
    ensures Run(steps).Some? && Run(steps).value.crashed.None? && 0 in Run(steps).value.conns
    ensures Act(0, Save(false)) !in steps
    ensures var k := Run(steps).value.conns[0];
            Waiting(k) && Serving(k) && k.client.imei == imei && k.client.batches == []
  {
    hide Run, Imei.EncodeIMEIToHex;
    var connect := Connect(0, Some(imei));
    Imei.EncodeIff(imei);
    EmptyRun();
    RunNext([], connect);
    RunNext([connect], Act(0, Authenticate));
    assert [] + [connect] == [connect];
    steps := [connect] + [Act(0, Authenticate)];
  }

  lemma EmptyRun()
    ensures Run([]) == Some(EMPTY)
  {
  }

  /** Every device with a 15-byte IMEI can send every list of packets, and have them all stored. */
  lemma {:induction false} SessionExists(imei: seq<uint8>, batches: seq<seq<AvlData>>) returns (steps: seq<Step>)
    requires |imei| == 15 && forall b <- batches :: Sendable(b)
    ensures Sent(steps, imei, batches) && RowsFor(Run(steps).value.table, 0) == SentRows(batches, imei)
    decreases |batches|
  {
    hide Run, Sendable, RowsFor, SentRows, Apply;
    if batches == [] {
      var front := DeviceConnects(imei);
      steps := AfterCall(front, imei, []);
    } else {
      var n := |batches| - 1;
      var front := SessionExists(imei, batches[..n]);
      var next := Act(0, Action.SendPoints(batches[n]));
      RunNext(front, next);
      SendEnabled(Run(front).value, batches[n]);
      assert batches[..n] + [batches[n]] == batches;
      steps := AfterCall(front + [next], imei, batches);
    }
    AllStored(steps, 0);
  }

  lemma SendEnabled(s: State, points: seq<AvlData>)
    requires s.crashed.None? && 0 in s.conns && Sendable(points)
    requires var k := s.conns[0]; k.client.Simulator? && k.client.stage == Ready && Serving(k)
    ensures var next := Apply(s, Act(0, Action.SendPoints(points)));
            next.Some? && next.value.crashed.None? && 0 in next.value.conns
            && var k, k' := s.conns[0], next.value.conns[0];
               Waiting(k') && Serving(k') && k'.client.imei == k.client.imei
               && k'.client.batches == k.client.batches + [points]
  {
    hide MakePacket;
  }

  // ---------------------------------------------------------------- what the handler has written

  lemma {:induction false} ReplyPlaces(batches: seq<seq<Point>>, j: nat)
    requires j < |batches|
    ensures var bytes := ReplyBytes(batches);
            |bytes| == 1 + 4 * |batches| && bytes[0] == 1
            && bytes[1 + 4 * j..5 + 4 * j] == [0, 0, 0, |batches[j]| % 0x100]
    decreases |batches|
  {
    var n := |batches| - 1;
    if n == 0 {
      assert batches[..0] == [];
    } else if j < n {
      ReplyPlaces(batches[..n], j);
      assert ReplyBytes(batches)[1 + 4 * j..5 + 4 * j] == ReplyBytes(batches[..n])[1 + 4 * j..5 + 4 * j];
    } else {
      ReplyPlaces(batches[..n], 0);
      var front := ReplyBytes(batches[..n]);
      assert ReplyBytes(batches)[|front|..] == [0, 0, 0, |batches[n]| % 0x100];
    }
  }

  /**
   In every run, a greeted connection has been written the byte 1, and then for each acknowledged packet three zero
   bytes and its number of points.
   */
  lemma OutputExact(steps: seq<Step>, c: nat, j: nat)
    requires Run(steps).Some? && c in Run(steps).value.conns
    ensures var k := Run(steps).value.conns[c];
            |k.output| == (if k.replies == 0 then 0 else 4 * k.replies - 3)
            && (k.replies > 0 ==> k.output[0] == 1)
            && (j + 1 < k.replies ==> j < |k.batches| && k.output[1 + 4 * j..5 + 4 * j] == [0, 0, 0, |k.batches[j]|])
  {
    hide Run, ReplyBytes, Contents, Kept, RowsFor, RawsFor;
    Safety(steps, c);
    var k := Run(steps).value.conns[c];
    EnoughBatches(k);
    if k.replies > 0 {
      var acked := k.batches[..k.replies - 1];
      if j + 1 < k.replies {
        ReplyPlaces(acked, j);
        assert acked[j] == k.batches[j] && k.batches[j] in k.batches;
      } else if acked == [] {
        FirstReply();
      } else {
        ReplyPlaces(acked, 0);
      }
    }
  }

  lemma EnoughBatches(k: Conn)
    requires Counts(k) && Contents(k)
    ensures k.replies > 0 ==> k.replies - 1 <= |k.batches|
  {
    hide Parse, Pad, Imei.DecodeIMEI;
  }
}
