/**
  The one-second bound of the server's replay check is exact as well: with any longer
  stretch between its two readings, one token can run a tool twice.
 */
module ServerGap {
  import opened Common
  import opened PipelineRuns
  import Server
  import System
  import Json
  import NonceStore

  /** Whatever the deployment and the traffic, stretches of at most `gap` seconds keep every token to one execution. */
  ghost predicate ExecutesOnceWithin(gap: real) {
    forall env, aud, steps, s ::
      System.Reaches(env, aud, steps, s) && Server.GapAtMost(s.server.log, gap) ==> Server.ExecutedOnce(s.server.log)
  }

  const AUTH := "Bearer k"

  /** The token is used a second time just before it expires. */
  function VerifyTime(gap: real): Time
    requires gap > 1.0
  {
    if gap < 1.5 then EXPIRY as real + 1.0 - gap else EXPIRY as real - 0.5
  }

  function FirstEvent(): Server.Event {
    Server.Checked(None, "k", "echo", Json.Obj([]), Some(AGENT_DOC), "key", "k", EXPIRY, 0.0, 0.0, 0.0, true)
  }

  function SecondEvent(gap: real): Server.Event
    requires gap > 1.0
  {
    var c: Time := VerifyTime(gap) + gap;
    Server.Checked(None, "k", "echo", Json.Obj([]), Some(AGENT_DOC), "key", "k", EXPIRY, VerifyTime(gap), c, c, true)
  }

  function AfterOne(): System.State {
    System.INITIAL.(server := Server.State(NonceStore.State(map["k" := EXPIRY], 0.0), [FirstEvent()], 0.0))
  }

  function AfterTwo(gap: real): System.State
    requires gap > 1.0
  {
    var c: Time := VerifyTime(gap) + gap;
    var log := [FirstEvent(), SecondEvent(gap)];
    System.INITIAL.(server := Server.State(NonceStore.State(map["k" := EXPIRY], c), log, c))
  }

  function DirectStep(tVerify: Time, tCheck: Time): System.Step {
    System.Direct(AUTH, "echo", Json.Obj([]), Some(AGENT_DOC), System.Times(tVerify, tCheck, tCheck))
  }

  /** With this deployment's token a call comes down to the replay check. */
  lemma CallIsCheck(s: Server.State, tVerify: Time, tCheck: Time)
    requires tVerify < EXPIRY as real
    ensures var c := Server.Call(None, AUTH, "echo", Json.Obj([]), Some(AGENT_DOC), tVerify, tCheck, tCheck);
            Server.CallTool(DemoEnv().crypto, "server", s, c) ==
            Server.CheckAndRun(s.(clock := tCheck), c, "k", "key", ClaimsOf("k"))
  {
    assert AUTH[7..] == "k" && AUTH[..7] == "Bearer ";
  }

  lemma FirstCall()
    ensures System.Enabled(DemoEnv(), System.INITIAL, DirectStep(0.0, 0.0))
    ensures System.Apply(DemoEnv(), "server", System.INITIAL, DirectStep(0.0, 0.0)) == AfterOne()
  {
    CallIsCheck(Server.INITIAL, 0.0, 0.0);
    hide Server.CallTool, DemoEnv;
  }

  lemma SecondCall(gap: real)
    requires gap > 1.0
    ensures var step := DirectStep(VerifyTime(gap), VerifyTime(gap) + gap);
            && System.Enabled(DemoEnv(), AfterOne(), step)
            && System.Apply(DemoEnv(), "server", AfterOne(), step) == AfterTwo(gap)
  {
    CallIsCheck(AfterOne().server, VerifyTime(gap), VerifyTime(gap) + gap);
    hide Server.CallTool, DemoEnv;
    var c: Time := VerifyTime(gap) + gap;
    assert NonceStore.Cleaned(AfterOne().server.nonces, c) == NonceStore.State(map[], c);
  }

  lemma ReplayedCall(gap: real)
    requires gap > 1.0
    ensures var steps := [DirectStep(0.0, 0.0), DirectStep(VerifyTime(gap), VerifyTime(gap) + gap)];
            System.Reaches(DemoEnv(), "server", steps, AfterTwo(gap))
  {
    FirstCall();
    SecondCall(gap);
    hide System.Apply, System.Enabled, AfterOne, AfterTwo, DirectStep, DemoEnv;
    var first, second := DirectStep(0.0, 0.0), DirectStep(VerifyTime(gap), VerifyTime(gap) + gap);
    assert [first, second][..1] == [first] && [first][..0] == [];
    assert System.Run(DemoEnv(), "server", [first]) == Some(AfterOne());
  }

  /** One second is exactly the stretch between the two readings that at-most-once execution tolerates. */
  lemma ToleratedGap(gap: real)
    ensures ExecutesOnceWithin(gap) <==> gap <= 1.0
  {
    if gap <= 1.0 {
      forall env, aud, steps, s | System.Reaches(env, aud, steps, s) && Server.GapAtMost(s.server.log, gap)
        ensures Server.ExecutedOnce(s.server.log)
      {
        System.ExecutesAtMostOnce(env, aud, steps, s);
      }
    } else {
      ReplayedCall(gap);
      var log := AfterTwo(gap).server.log;
      assert log[0].token == log[1].token;
      assert Server.GapAtMost(log, gap);
    }
  }
}
