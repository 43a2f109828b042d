/** The Redis key names of the command protocol: keys of different robots or commands never coincide. */
module RobotKeys {

  /** Robot and command ids are UUID texts, so they hold no colon. */
  datatype Key =
    | Active(robot: string)
    | Command(robot: string, command: string)
    | Dispatch(robot: string, command: string, attempt: int)
    | Position(robot: string)
    | LastSeen(robot: string)
    | State(robot: string)

  predicate NoColon(s: string) {
    ':' !in s
  }

  predicate Proper(k: Key) {
    && NoColon(k.robot)
    && (k.Command? ==> NoColon(k.command))
    && (k.Dispatch? ==> NoColon(k.command) && 1 <= k.attempt <= 4)
  }

  function Digit(n: int): string
    requires 0 <= n <= 9
  {
    [('0' as int + n) as char]
  }

  function CommandKey(robot: string, command: string): string {
    "robot:" + robot + ":command:" + command
  }

  function Render(k: Key): string
    requires Proper(k)
  {
    match k
    case Active(r) => "robot:" + r + ":active_command"
    case Command(r, c) => CommandKey(r, c)
    case Dispatch(r, c, n) => CommandKey(r, c) + ":dispatch:" + Digit(n)
    case Position(r) => "robot:" + r + ":position"
    case LastSeen(r) => "robot:" + r + ":last_seen_at"
    case State(r) => "robot:" + r + ":state"
  }

  /** Python's `s.split(":")`. */
  function Split(s: string): (parts: seq<string>)
    ensures |parts| > 0
  {
    if s == "" then [""]
    else
      var rest := Split(s[1..]);
      if s[0] == ':' then [""] + rest else [[s[0]] + rest[0]] + rest[1..]
  }

  lemma {:induction false} SplitAtColon(a: string, rest: string)
    requires NoColon(a)
    ensures Split(a + ":" + rest) == [a] + Split(rest)
  {
    if a == "" {
      assert (":" + rest)[1..] == rest;
      assert a + ":" + rest == ":" + rest;
    } else {
      SplitAtColon(a[1..], rest);
      assert (a + ":" + rest)[1..] == a[1..] + ":" + rest;
      assert [a[0]] + a[1..] == a;
    }
  }

  lemma {:induction false} SplitWithoutColon(a: string)
    requires NoColon(a)
    ensures Split(a) == [a]
  {
    if a != "" {
      SplitWithoutColon(a[1..]);
      assert [a[0]] + a[1..] == a;
    }
  }

  /** The parts that identify a key. */
  function Parts(k: Key): seq<string>
    requires Proper(k)
  {
    match k
    case Active(r) => ["robot", r, "active_command"]
    case Command(r, c) => ["robot", r, "command", c]
    case Dispatch(r, c, n) => ["robot", r, "command", c, "dispatch", Digit(n)]
    case Position(r) => ["robot", r, "position"]
    case LastSeen(r) => ["robot", r, "last_seen_at"]
    case State(r) => ["robot", r, "state"]
  }

  lemma SplitRobotKey(r: string, rest: string)
    requires NoColon(r)
    ensures Split("robot:" + r + ":" + rest) == ["robot", r] + Split(rest)
  {
    hide Split;
    SplitAtColon("robot", r + ":" + rest);
    SplitAtColon(r, rest);
    assert "robot:" + r + ":" + rest == "robot" + ":" + (r + ":" + rest);
  }

  lemma SplitSimple(r: string, word: string)
    requires NoColon(r) && NoColon(word)
    ensures Split("robot:" + r + (":" + word)) == ["robot", r, word]
  {
    hide Split;
    SplitRobotKey(r, word);
    SplitWithoutColon(word);
    assert "robot:" + r + (":" + word) == "robot:" + r + ":" + word;
  }

  lemma SplitCommand(r: string, c: string)
    requires NoColon(r) && NoColon(c)
    ensures Split(CommandKey(r, c)) == ["robot", r, "command", c]
  {
    hide Split;
    SplitRobotKey(r, "command" + ":" + c);
    SplitAtColon("command", c);
    SplitWithoutColon(c);
    assert CommandKey(r, c) == "robot:" + r + ":" + ("command" + ":" + c);
  }

  lemma SplitAfterCommand(r: string, c: string, rest: string)
    requires NoColon(r) && NoColon(c)
    ensures Split(CommandKey(r, c) + ":" + rest) == ["robot", r, "command", c] + Split(rest)
  {
    hide Split;
    SplitRobotKey(r, "command" + ":" + (c + ":" + rest));
    SplitAtColon("command", c + ":" + rest);
    SplitAtColon(c, rest);
    assert CommandKey(r, c) + ":" + rest == "robot:" + r + ":" + ("command" + ":" + (c + ":" + rest));
  }

  lemma SplitDispatch(r: string, c: string, n: int)
    requires NoColon(r) && NoColon(c) && 1 <= n <= 4
    ensures Split(CommandKey(r, c) + ":dispatch:" + Digit(n)) == ["robot", r, "command", c, "dispatch", Digit(n)]
  {
    hide Split;
    SplitAfterCommand(r, c, "dispatch" + ":" + Digit(n));
    SplitAtColon("dispatch", Digit(n));
    SplitWithoutColon(Digit(n));
    assert CommandKey(r, c) + ":dispatch:" + Digit(n) == CommandKey(r, c) + ":" + ("dispatch" + ":" + Digit(n));
  }

  lemma SplitRender(k: Key)
    requires Proper(k)
    ensures Split(Render(k)) == Parts(k)
  {
    hide Split;
    match k
    case Active(r) =>
      SplitSimple(r, "active_command");
      assert Render(k) == "robot:" + r + (":" + "active_command");
    case Position(r) =>
      SplitSimple(r, "position");
      assert Render(k) == "robot:" + r + (":" + "position");
    case LastSeen(r) =>
      SplitSimple(r, "last_seen_at");
      assert Render(k) == "robot:" + r + (":" + "last_seen_at");
    case State(r) =>
      SplitSimple(r, "state");
      assert Render(k) == "robot:" + r + (":" + "state");
    case Command(r, c) => SplitCommand(r, c);
    case Dispatch(r, c, n) => SplitDispatch(r, c, n);
  }

  /** Two keys with the same text are the same key, so the keys of one robot are separate from all others. */
  lemma RenderIsInjective(k: Key, k': Key)
    requires Proper(k) && Proper(k') && Render(k) == Render(k')
    ensures k == k'
  {
    SplitRender(k);
    SplitRender(k');
    var p := Parts(k);
    assert p == Parts(k') && p[1] == k.robot == k'.robot && p[2] == Parts(k')[2];
    if k.Command? || k.Dispatch? {
      assert p[3] == k.command;
      if k.Dispatch? {
        assert p[5] == Digit(k.attempt);
      }
    }
  }

  /** The scan over reservations recovers the robot of every reservation key. */
  lemma ScanRecoversRobot(robot: string)
    requires NoColon(robot)
    ensures var parts := Split(Render(Active(robot))); |parts| == 3 && parts[1] == robot
  {
    SplitRender(Active(robot));
  }
}
