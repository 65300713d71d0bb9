/** `teitunnel up`: what it prints about each tunnel it runs, polled every two seconds. */
module TunnelReport {
  import opened Changes
  import opened Histories
  import opened Wrappers

  datatype ConnectorState = Healthy | Starting | Connecting | Degraded | Crashed | CrashLoop | Stopping | Stopped

  /** What is printed for a state. */
  datatype Words =
    | IsConnected
    | IsConnecting
    | LostReconnecting
    | StoppedUnexpectedlyRestarting
    | KeepsStopping
    | IsStopping
    | IsStopped

  /** The state in words; a tunnel without a connector is stopped. */
  function Describe(state: Option<ConnectorState>): Words {
    match state
    case Some(Healthy) => IsConnected
    case Some(Starting) => IsConnecting
    case Some(Connecting) => IsConnecting
    case Some(Degraded) => LostReconnecting
    case Some(Crashed) => StoppedUnexpectedlyRestarting
    case Some(CrashLoop) => KeepsStopping
    case Some(Stopping) => IsStopping
    case Some(Stopped) => IsStopped
    case None => IsStopped
  }

  /** A tunnel is called connected only while it is healthy, and stopped only if it is or has no
      connector. */
  lemma WordsAre(state: Option<ConnectorState>)
    ensures Describe(state) == IsConnected <==> state == Some(Healthy)
    ensures Describe(state) == IsConnecting <==> state == Some(Starting) || state == Some(Connecting)
    ensures Describe(state) == LostReconnecting <==> state == Some(Degraded)
    ensures Describe(state) == StoppedUnexpectedlyRestarting <==> state == Some(Crashed)
    ensures Describe(state) == KeepsStopping <==> state == Some(CrashLoop)
    ensures Describe(state) == IsStopping <==> state == Some(Stopping)
    ensures Describe(state) == IsStopped <==> state == Some(Stopped) || state == None
  {
  }

  function DescribeAll(states: seq<Option<ConnectorState>>): (r: seq<Words>)
    ensures |r| == |states|
  {
    seq(|states|, i requires 0 <= i < |states| => Describe(states[i]))
  }

  datatype Line = Line(tunnel: nat, state: Words)

  /** The line for one tunnel, unless its state is the one printed last. */
  function LineFor(last: seq<Words>, now: seq<Words>, tunnel: nat): seq<Line>
    requires tunnel < |now|
  {
    if tunnel < |last| && last[tunnel] == now[tunnel] then [] else [Line(tunnel, now[tunnel])]
  }

  /** The lines for the first `n` tunnels. */
  function Lines(last: seq<Words>, now: seq<Words>, n: nat): seq<Line>
    requires n <= |now|
  {
    if n == 0 then [] else Lines(last, now, n - 1) + LineFor(last, now, n - 1)
  }

  class Reporter {
    var last: seq<Words>

    constructor ()
      ensures last == []
    {
      last := [];
    }

    method Report(states: seq<Option<ConnectorState>>) returns (lines: seq<Line>)
      requires last == [] || |last| == |states|
      modifies this
      ensures last == DescribeAll(states)
      ensures lines == Lines(old(last), DescribeAll(states), |states|)
    {
      lines := [];
      ghost var was, all := last, DescribeAll(states);
      for index := 0 to |states|
        invariant was == [] ==> last == all[..index]
        invariant was != [] ==> |last| == |all| && last[..index] == all[..index] && last[index..] == was[index..]
        invariant lines == Lines(was, all, index)
      {
        var now := Describe(states[index]);
        assert now == all[index];
        assert was != [] ==> last[index] == last[index..][0] == was[index..][0] == was[index];
        if index >= |last| || last[index] != now {
          lines := lines + [Line(index, now)];
        }
        if index < |last| {
          last := last[index := now];
        } else {
          last := last + [now];
        }
        assert all[..index + 1] == all[..index] + [now];
        assert was != [] ==> last[..index + 1] == all[..index + 1] && last[index + 1..] == was[index + 1..];
      }
    }
  }

  /** The polls of a run over `n` tunnels, each in words. */
  ghost predicate Polls(polls: seq<seq<Words>>, n: nat) {
    polls != [] ==> |Last(polls)| == n && Polls(Init(polls), n)
  }

  /** What the reporter remembers after the polls. */
  function Latest(polls: seq<seq<Words>>): seq<Words> {
    if polls == [] then [] else Last(polls)
  }

  function Printed(polls: seq<seq<Words>>): seq<Line> {
    if polls == [] then []
    else Printed(Init(polls)) + Lines(Latest(Init(polls)), Last(polls), |Last(polls)|)
  }

  function Of(tunnel: nat): Line -> Option<Words> {
    (line: Line) => if line.tunnel == tunnel then Some(line.state) else None
  }

  /** What was printed about one tunnel. */
  function About(lines: seq<Line>, tunnel: nat): seq<Words> {
    Picked(lines, Of(tunnel))
  }

  /** The states of one tunnel over the polls. */
  ghost function Column(polls: seq<seq<Words>>, n: nat, tunnel: nat): seq<Words>
    requires Polls(polls, n) && tunnel < n
  {
    if polls == [] then [] else Column(Init(polls), n, tunnel) + [Last(polls)[tunnel]]
  }

  lemma AboutOneMore(lines: seq<Line>, more: seq<Line>, tunnel: nat)
    requires |more| <= 1
    ensures About(lines + more, tunnel)
            == if more != [] && more[0].tunnel == tunnel then About(lines, tunnel) + [more[0].state] else About(lines, tunnel)
  {
    if more == [] {
      assert lines + more == lines;
    } else {
      assert more == [more[0]];
      Push(lines, more[0]);
      assert About(lines, tunnel) + [] == About(lines, tunnel);
    }
  }

  lemma LaterLines(last: seq<Words>, now: seq<Words>, n: nat, tunnel: nat)
    requires n < |now|
    ensures About(Lines(last, now, n + 1), tunnel)
            == if n == tunnel && LineFor(last, now, n) != [] then About(Lines(last, now, n), tunnel) + [now[n]]
               else About(Lines(last, now, n), tunnel)
  {
    hide About;
    AboutOneMore(Lines(last, now, n), LineFor(last, now, n), tunnel);
  }

  lemma {:induction false} NothingYet(last: seq<Words>, now: seq<Words>, n: nat, tunnel: nat)
    requires n <= |now| && n <= tunnel
    ensures About(Lines(last, now, n), tunnel) == []
  {
    if n > 0 {
      NothingYet(last, now, n - 1, tunnel);
      LaterLines(last, now, n - 1, tunnel);
    }
  }

  lemma {:induction false} AboutLines(last: seq<Words>, now: seq<Words>, n: nat, tunnel: nat)
    requires tunnel < n <= |now|
    ensures About(Lines(last, now, n), tunnel) == if LineFor(last, now, tunnel) != [] then [now[tunnel]] else []
  {
    hide LineFor, Lines;
    LaterLines(last, now, n - 1, tunnel);
    if n - 1 > tunnel {
      AboutLines(last, now, n - 1, tunnel);
    } else {
      NothingYet(last, now, tunnel, tunnel);
    }
  }

  lemma {:induction false} LatestOfColumn(polls: seq<seq<Words>>, n: nat, tunnel: nat)
    requires Polls(polls, n) && tunnel < n
    ensures polls == [] <==> Column(polls, n, tunnel) == []
    ensures polls != [] ==> Last(Column(polls, n, tunnel)) == Latest(polls)[tunnel] && |Latest(polls)| == n
  {
  }

  /** Over every run, what is printed about a tunnel is its states with repetitions left out: it
      is never told the same state twice in a row, and its last line is its current state. */
  lemma {:induction false} TunnelLinesTellChanges(polls: seq<seq<Words>>, n: nat, tunnel: nat)
    requires Polls(polls, n) && tunnel < n
    ensures About(Printed(polls), tunnel) == Compressed(Column(polls, n, tunnel))
  {
    if polls != [] {
      var before, now := Init(polls), Last(polls);
      TunnelLinesTellChanges(before, n, tunnel);
      PickedConcat(Printed(before), Lines(Latest(before), now, n), Of(tunnel));
      AboutLines(Latest(before), now, n, tunnel);
      LatestOfColumn(before, n, tunnel);
      CompressedPush(Column(before, n, tunnel), now[tunnel]);
    }
  }
}
