// A command on its way from vbusctl's arguments (vbus/src/cli/vbusctl.cpp) to the daemon's words
// (vbus/src/daemon/vbusd.cpp).
module CommandLine {
  predicate IsSpace(c: char) {
    c == ' ' || c == '\t' || c == '\n' || c == '\r' || c == 11 as char || c == 12 as char
  }

  predicate IsWord(w: string) {
    w != [] && forall i :: 0 <= i < |w| ==> !IsSpace(w[i])
  }

  // ---------- the sender ----------

  function Joined(args: seq<string>): string {
    if args == [] then []
    else if |args| == 1 then args[0]
    else Joined(args[..|args| - 1]) + [' '] + args[|args| - 1]
  }

  method Join(args: seq<string>) returns (cmd: string)
    ensures cmd == Joined(args)
  {
    cmd := [];
    for i := 0 to |args|
      invariant cmd == Joined(args[..i])
    {
      assert args[..i + 1][..i] == args[..i];
      if i > 0 {
        cmd := cmd + [' '];
      }
      cmd := cmd + args[i];
    }
    assert args[..|args|] == args;
  }

  // ---------- the daemon ----------

  // The message without the line ends it may finish with.
  function Chomped(s: string): string {
    if s != [] && (s[|s| - 1] == '\n' || s[|s| - 1] == '\r') then Chomped(s[..|s| - 1]) else s
  }

  // What Chomped leaves away is line ends, and it leaves none at the end.
  lemma {:induction false} ChompedExactly(s: string)
    ensures Chomped(s) <= s && forall i :: |Chomped(s)| <= i < |s| ==> s[i] in {'\n', '\r'}
    ensures Chomped(s) != "" ==> Chomped(s)[|Chomped(s)| - 1] !in {'\n', '\r'}
  {
    if s != [] && (s[|s| - 1] == '\n' || s[|s| - 1] == '\r') {
      ChompedExactly(s[..|s| - 1]);
    }
  }

  method Chomp(s: string) returns (line: string)
    ensures line == Chomped(s)
  {
    line := s;
    while line != [] && (line[|line| - 1] == '\n' || line[|line| - 1] == '\r')
      invariant Chomped(line) == Chomped(s)
    {
      line := line[..|line| - 1];
    }
  }

  // The words of a text that starts in the middle of the word `cur`.
  function Words(cur: string, s: string): seq<string>
    decreases |s|
  {
    if s == [] then (if cur == [] then [] else [cur])
    else if IsSpace(s[0]) then (if cur == [] then [] else [cur]) + Words([], s[1..])
    else Words(cur + [s[0]], s[1..])
  }

  // Extraction with >>: skip the spaces, then take characters up to the next space.
  method Split(s: string) returns (out: seq<string>)
    ensures out == Words([], s)
  {
    var i := 0;
    out := [];
    while i < |s|
      invariant i <= |s| && out + Words([], s[i..]) == Words([], s)
      decreases |s| - i
    {
      var tok := [];
      while i < |s| && IsSpace(s[i])
        invariant i <= |s| && out + Words([], s[i..]) == Words([], s)
      {
        assert s[i..][1..] == s[i + 1..];
        i := i + 1;
      }
      ghost var start := i;
      while i < |s| && !IsSpace(s[i])
        invariant start <= i <= |s| && out + Words(tok, s[i..]) == Words([], s)
        invariant tok != [] <==> start < i
      {
        assert s[i..][1..] == s[i + 1..];
        tok := tok + [s[i]];
        i := i + 1;
      }
      if tok != [] {
        out := out + [tok];
      }
    }
  }

  // ---------- there and back ----------

  lemma {:induction false} WordTaken(cur: string, w: string, rest: string)
    requires forall i :: 0 <= i < |w| ==> !IsSpace(w[i])
    ensures Words(cur, w + rest) == Words(cur + w, rest)
    decreases |w|
  {
    if w == [] {
      assert w + rest == rest && cur + w == cur;
    } else {
      assert (w + rest)[1..] == w[1..] + rest;
      WordTaken(cur + [w[0]], w[1..], rest);
      assert cur + [w[0]] + w[1..] == cur + w;
    }
  }

  lemma {:induction false} WordsApart(cur: string, s: string, rest: string)
    ensures Words(cur, s + [' '] + rest) == Words(cur, s) + Words([], rest)
    decreases |s|
  {
    var all := s + [' '] + rest;
    if s == [] {
      assert all[0] == ' ' && all[1..] == rest;
    } else {
      assert all[0] == s[0] && all[1..] == s[1..] + [' '] + rest;
      WordsApart(if IsSpace(s[0]) then [] else cur + [s[0]], s[1..], rest);
    }
  }

  lemma WordItself(w: string)
    requires IsWord(w)
    ensures Words([], w) == [w]
  {
    WordTaken([], w, []);
    assert w + [] == w && [] + w == w;
  }

  lemma {:induction false} WordsAreWords(cur: string, s: string, w: string)
    requires forall i :: 0 <= i < |cur| ==> !IsSpace(cur[i])
    requires w in Words(cur, s)
    ensures IsWord(w)
    decreases |s|
  {
    if s != [] {
      if !IsSpace(s[0]) {
        WordsAreWords(cur + [s[0]], s[1..], w);
      } else if w in Words([], s[1..]) {
        WordsAreWords([], s[1..], w);
      }
    }
  }

  lemma {:induction false} WordsKept(args: seq<string>)
    requires forall i :: 0 <= i < |args| ==> IsWord(args[i])
    ensures Words([], Joined(args)) == args
  {
    if args != [] {
      var init, last := args[..|args| - 1], args[|args| - 1];
      WordItself(last);
      WordsKept(init);
      if |args| > 1 {
        WordsApart([], Joined(init), last);
      }
      assert args == init + [last];
    }
  }

  lemma {:induction false} TrailingSpace(cur: string, s: string, c: char)
    requires IsSpace(c)
    ensures Words(cur, s + [c]) == Words(cur, s)
    decreases |s|
  {
    if s == [] {
      assert (s + [c])[1..] == [];
    } else {
      assert (s + [c])[1..] == s[1..] + [c];
      TrailingSpace(if IsSpace(s[0]) then [] else cur + [s[0]], s[1..], c);
    }
  }

  lemma {:induction false} ChompKeepsWords(s: string)
    ensures Words([], Chomped(s)) == Words([], s)
  {
    if s != [] && (s[|s| - 1] == '\n' || s[|s| - 1] == '\r') {
      ChompKeepsWords(s[..|s| - 1]);
      TrailingSpace([], s[..|s| - 1], s[|s| - 1]);
      assert s == s[..|s| - 1] + [s[|s| - 1]];
    }
  }

  // ---------- the message ----------

  // The longest message that the daemon's buffer takes; a longer one ends the pipe's thread.
  const LONGEST := 65535

  datatype Outcome = Heard(words: seq<string>) | HungUp

  // vbusctl ends the command with a newline.
  function Message(args: seq<string>): string {
    Joined(args) + ['\n']
  }

  function Hear(message: string): Outcome {
    if |message| <= LONGEST then Heard(Words([], Chomped(message))) else HungUp
  }

  method SendCommand(args: seq<string>) returns (message: string)
    ensures message == Message(args)
  {
    var cmd := Join(args);
    message := cmd + ['\n'];
  }

  method ReadCommand(message: string) returns (outcome: Outcome)
    ensures outcome == Hear(message)
  {
    if |message| > LONGEST {
      return HungUp;
    }
    var line := Chomp(message);
    var words := Split(line);
    return Heard(words);
  }

  // Characters that show on a page: the ASCII ones above the space, and everything beyond ASCII.
  ghost predicate Printable(w: string) {
    w != "" && forall i :: 0 <= i < |w| ==> w[i] > ' '
  }

  /** Arguments of printable characters, ':' and ',' among them, arrive as they were given, as long as the
      command fits. */
  lemma PrintableArrive(args: seq<string>)
    requires (forall i :: 0 <= i < |args| ==> Printable(args[i])) && |Joined(args)| < 65535
    ensures Hear(Message(args)) == Heard(args)
  {
    ArgumentsArrive(args);
  }

  /** The daemon sees exactly the arguments given to vbusctl if and only if each is a word, not empty
      and with no white space in it, and the command with its newline fits the daemon's buffer. */
  lemma ArgumentsArrive(args: seq<string>)
    ensures Hear(Message(args)) == Heard(args) <==>
            (forall i :: 0 <= i < |args| ==> IsWord(args[i])) && |Joined(args)| < 65535
  {
    ChompKeepsWords(Message(args));
    TrailingSpace([], Joined(args), '\n');
    if forall i :: 0 <= i < |args| ==> IsWord(args[i]) {
      WordsKept(args);
    }
    if Words([], Joined(args)) == args {
      forall i | 0 <= i < |args| ensures IsWord(args[i]) {
        assert args[i] in Words([], Joined(args));
        WordsAreWords([], Joined(args), args[i]);
      }
    }
  }
}
