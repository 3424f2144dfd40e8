/** The fluent renderer: an ordered list of commands becomes one chained call
    expression such as `arms.left_forward(0,0,0).right_forward(0,0,0)`. */
module Fluent {

  import opened Wrappers
  import opened Decimal

  /** One call of the chain: its name (qualified for the first call,
      bare for a continuation) and its integer parameters. */
  datatype Command = Command(name: string, params: seq<int>)

  /** The parameters as decimal text, separated by commas, no spaces. */
  function JoinParams(ps: seq<int>): (r: string)
    ensures ps == [] <==> r == []
    ensures |r| >= 2 * |ps| - 1
  {
    if ps == [] then ""
    else if |ps| == 1 then IntToString(ps[0])
    else IntToString(ps[0]) + "," + JoinParams(ps[1..])
  }

  /** `name(p0,p1,...)`; the parentheses are there even without parameters.
      A name without `(` reads back, with its parameters, from the text. */
  function RenderCommand(c: Command): (r: string)
    ensures PlainName(c.name) ==> ReadCommand(r) == Some((c, []))
  {
    var r := c.name + "(" + JoinParams(c.params) + ")";
    ReadCommandText(c, []);
    assert r + [] == r;
    r
  }

  /** The renderings of the commands, in list order, joined by single dots.
      When no name holds `(`, the text reads back as exactly these commands. */
  function Chain(commands: seq<Command>): (r: string)
    ensures commands == [] <==> r == []
    ensures PlainNames(commands) ==> ReadChain(r) == Some(commands)
  {
    if commands == [] then ""
    else if |commands| == 1 then
      ReadChainLast(commands);
      RenderCommand(commands[0])
    else
      var rest := Chain(commands[1..]);
      ReadChainMore(commands, rest);
      RenderCommand(commands[0]) + "." + rest
  }

  /** `commands_to_text(commands, is_blocking=False, fluentnao="")`, with the same
      defaults. The root identifier
      `fluentnao` is put before the chain and, when `isBlocking` holds, the
      blocking marker `blockingSuffix` after it; neither is written for an
      empty list, which always gives the empty string. */
  function CommandsToText(commands: seq<Command>, isBlocking: bool := false, fluentnao: string := "",
                          blockingSuffix: string := ""): (text: string)
    ensures commands == [] <==> text == []
  {
    if commands == [] then ""
    else
      fluentnao + Chain(commands) + (if isBlocking then blockingSuffix else "")
  }

  /** A name the reader below can find the end of: it holds no opening parenthesis. */
  predicate PlainName(name: string) {
    forall i :: 0 <= i < |name| ==> name[i] != '('
  }

  predicate PlainNames(commands: seq<Command>) {
    forall i :: 0 <= i < |commands| ==> PlainName(commands[i].name)
  }

  // ---------------------------------------------------------------------------
  // Reading rendered text back: the inverse that fixes what the renderer writes.

  /** Index of the first `(` in s, or |s| when there is none. */
  function IndexOfOpen(s: string): (i: nat)
    ensures i <= |s|
    ensures i < |s| ==> s[i] == '('
    ensures PlainName(s[..i])
  {
    if s == [] || s[0] == '(' then 0
    else
      var i := 1 + IndexOfOpen(s[1..]);
      assert s[..i] == [s[0]] + s[1..][..i - 1];
      i
  }

  /** Reads `p0,p1,...,pn)` and returns the parameters and the text after `)`. */
  function ReadIntList(s: string): (r: Option<(seq<int>, string)>)
    ensures r.Some? ==> |r.value.1| < |s|
    decreases |s|
  {
    match ReadInt(s)
    case None => None
    case Some((v, t)) =>
      if |t| > 0 && t[0] == ')' then Some(([v], t[1..]))
      else if |t| > 0 && t[0] == ',' then
        match ReadIntList(t[1..])
        case None => None
        case Some((vs, u)) => Some(([v] + vs, u))
      else None
  }

  /** Reads a parameter list after its `(`, up to and including its `)`. */
  function ReadParams(s: string): (r: Option<(seq<int>, string)>)
    ensures r.Some? ==> |r.value.1| < |s|
  {
    if |s| > 0 && s[0] == ')' then Some(([], s[1..])) else ReadIntList(s)
  }

  /** Reads one `name(params)` and returns the command and the text after it. */
  function ReadCommand(s: string): (r: Option<(Command, string)>)
    ensures r.Some? ==> |r.value.1| < |s|
  {
    var i := IndexOfOpen(s);
    if i == |s| then None
    else
      match ReadParams(s[i + 1..])
      case None => None
      case Some((ps, t)) => Some((Command(s[..i], ps), t))
  }

  /** Reads a whole chain: commands separated by single dots, nothing after the last. */
  function ReadChain(s: string): (r: Option<seq<Command>>)
    ensures r.Some? ==> (s == [] <==> r.value == [])
    decreases |s|
  {
    if s == [] then Some([])
    else
      match ReadCommand(s)
      case None => None
      case Some((c, t)) =>
        if t == [] then Some([c])
        else if t[0] == '.' then
          match ReadChain(t[1..])
          case Some(cs) => if cs == [] then None else Some([c] + cs)
          case None => None
        else None
  }

  // ---------------------------------------------------------------------------
  // Lemmas

  lemma PlainNamesTail(commands: seq<Command>)
    requires commands != [] && PlainNames(commands)
    ensures PlainNames(commands[1..])
  {
    var rest := commands[1..];
    forall i | 0 <= i < |rest| ensures PlainName(rest[i].name) {
      assert rest[i] == commands[i + 1];
    }
  }

  /** Parameter text uses only digits, minus signs and commas: no spaces. */
  lemma {:induction false} JoinParamsAlphabet(ps: seq<int>)
    ensures forall i :: 0 <= i < |JoinParams(ps)| ==>
      IsDigit(JoinParams(ps)[i]) || JoinParams(ps)[i] == '-' || JoinParams(ps)[i] == ','
  {
    if |ps| == 1 {
      IntAlphabet(ps[0]);
    } else if |ps| > 1 {
      IntAlphabet(ps[0]);
      JoinParamsAlphabet(ps[1..]);
      var a, b := IntToString(ps[0]), JoinParams(ps[1..]);
      assert JoinParams(ps) == a + "," + b;
      forall i | 0 <= i < |a + "," + b|
        ensures IsDigit((a + "," + b)[i]) || (a + "," + b)[i] == '-' || (a + "," + b)[i] == ','
      {
        if i < |a| { assert (a + "," + b)[i] == a[i]; }
        else if i > |a| { assert (a + "," + b)[i] == b[i - |a| - 1]; }
      }
    }
  }

  lemma IntAlphabet(n: int)
    ensures forall i :: 0 <= i < |IntToString(n)| ==>
      IsDigit(IntToString(n)[i]) || IntToString(n)[i] == '-'
  {
    var s := IntToString(n);
    if n < 0 {
      NatToStringSpells(-n);
      assert s[1..] == NatToString(-n);
      forall i | 0 < i < |s| ensures IsDigit(s[i]) {
        assert s[i] == s[1..][i - 1];
      }
    } else {
      NatToStringSpells(n);
    }
  }

  lemma ReadIntListLast(n: int, t: string)
    ensures ReadIntList(IntToString(n) + (")" + t)) == Some(([n], t))
  {
    ReadIntToString(n, ")" + t);
    assert (")" + t)[1..] == t;
  }

  lemma ReadIntListMore(n: int, rest: string, vs: seq<int>, u: string)
    requires ReadIntList(rest) == Some((vs, u))
    ensures ReadIntList(IntToString(n) + ("," + rest)) == Some(([n] + vs, u))
  {
    ReadIntToString(n, "," + rest);
    assert ("," + rest)[1..] == rest;
  }

  /** The parameter text followed by `)` starts with the first parameter's text. */
  lemma JoinParamsSplit(ps: seq<int>, t: string)
    requires ps != []
    ensures |ps| == 1 ==> JoinParams(ps) + ")" + t == IntToString(ps[0]) + (")" + t)
    ensures |ps| > 1 ==>
      JoinParams(ps) + ")" + t == IntToString(ps[0]) + ("," + (JoinParams(ps[1..]) + ")" + t))
  {
    var a := IntToString(ps[0]);
    if |ps| > 1 {
      var b := JoinParams(ps[1..]);
      assert JoinParams(ps) == a + "," + b;
      Regroup4(a, ",", b, t);
    } else {
      Assoc3(a, ")", t);
    }
  }

  lemma {:induction false} ReadIntListJoin(ps: seq<int>, t: string)
    requires ps != []
    ensures ReadIntList(JoinParams(ps) + ")" + t) == Some((ps, t))
  {
    JoinParamsSplit(ps, t);
    if |ps| == 1 {
      ReadIntListLast(ps[0], t);
      assert [ps[0]] == ps;
    } else {
      ReadIntListJoin(ps[1..], t);
      ReadIntListMore(ps[0], JoinParams(ps[1..]) + ")" + t, ps[1..], t);
      assert [ps[0]] + ps[1..] == ps;
    }
  }

  lemma ReadParamsJoin(ps: seq<int>, t: string)
    ensures ReadParams(JoinParams(ps) + ")" + t) == Some((ps, t))
  {
    if ps == [] {
      assert JoinParams(ps) + ")" + t == ")" + t;
      assert (")" + t)[1..] == t;
    } else {
      ReadIntListJoin(ps, t);
      var head := IntToString(ps[0]);
      if |ps| == 1 {
        assert (JoinParams(ps) + ")" + t)[0] == head[0];
      } else {
        assert (JoinParams(ps) + ")" + t)[0] == head[0];
      }
    }
  }

  lemma {:induction false} IndexOfOpenAfterName(name: string, t: string)
    requires PlainName(name)
    ensures IndexOfOpen(name + "(" + t) == |name|
  {
    if name != [] {
      assert (name + "(" + t)[1..] == name[1..] + "(" + t;
      IndexOfOpenAfterName(name[1..], t);
    }
  }

  /** Reading a rendered command gives the command back and leaves what follows. */
  lemma ReadCommandText(c: Command, t: string)
    ensures PlainName(c.name) ==>
      ReadCommand(c.name + "(" + JoinParams(c.params) + ")" + t) == Some((c, t))
  {
    if !PlainName(c.name) { return; }
    var p := JoinParams(c.params) + ")" + t;
    var s := c.name + "(" + JoinParams(c.params) + ")" + t;
    assert s == c.name + "(" + p;
    IndexOfOpenAfterName(c.name, p);
    assert s[..|c.name|] == c.name;
    assert s[|c.name| + 1..] == p;
    ReadParamsJoin(c.params, t);
  }

  lemma ReadChainLast(commands: seq<Command>)
    requires |commands| == 1
    ensures PlainNames(commands) ==> ReadChain(RenderCommand(commands[0])) == Some(commands)
  {
    if !PlainNames(commands) { return; }
    assert PlainName(commands[0].name);
    assert RenderCommand(commands[0]) != [];
    assert [commands[0]] == commands;
  }

  /** A chain of two or more commands reads back when its tail's chain does. */
  lemma ReadChainMore(commands: seq<Command>, rest: string)
    requires |commands| > 1
    requires PlainNames(commands[1..]) ==> ReadChain(rest) == Some(commands[1..])
    ensures PlainNames(commands) ==>
      ReadChain(RenderCommand(commands[0]) + "." + rest) == Some(commands)
  {
    if PlainNames(commands) {
      PlainNamesTail(commands);
      ReadChainStep(commands[0], rest, commands[1..]);
      assert [commands[0]] + commands[1..] == commands;
    }
  }

  lemma ReadChainStep(c: Command, rest: string, cs: seq<Command>)
    requires PlainName(c.name)
    requires ReadChain(rest) == Some(cs) && cs != []
    ensures ReadChain(RenderCommand(c) + "." + rest) == Some([c] + cs)
  {
    var s := RenderCommand(c) + "." + rest;
    assert s == c.name + "(" + JoinParams(c.params) + ")" + ("." + rest);
    ReadCommandText(c, "." + rest);
    assert ("." + rest)[1..] == rest;
  }

  /** With the default options the text is the bare chain. */
  lemma DefaultOptionsText(commands: seq<Command>)
    ensures CommandsToText(commands) == Chain(commands)
  {
    if commands != [] {
      assert CommandsToText(commands) == "" + Chain(commands) + "";
    }
  }

  /** With the default options the text is the bare chain, which reads back
      as the commands themselves. */
  lemma CommandsToTextRoundTrip(commands: seq<Command>)
    requires PlainNames(commands)
    ensures ReadChain(CommandsToText(commands)) == Some(commands)
  {
    DefaultOptionsText(commands);
  }

  /** Concatenating the command lists of two groups renders as the two chains
      joined by one dot. */
  lemma {:induction false} ChainAppend(xs: seq<Command>, ys: seq<Command>)
    requires xs != [] && ys != []
    ensures Chain(xs + ys) == Chain(xs) + "." + Chain(ys)
  {
    var head := RenderCommand(xs[0]);
    assert (xs + ys)[0] == xs[0];
    if |xs| == 1 {
      assert (xs + ys)[1..] == ys;
      assert Chain(xs + ys) == head + "." + Chain(ys);
    } else {
      assert (xs + ys)[1..] == xs[1..] + ys;
      ChainAppend(xs[1..], ys);
      assert Chain(xs + ys) == head + "." + (Chain(xs[1..]) + "." + Chain(ys));
      assert Chain(xs) == head + "." + Chain(xs[1..]);
      Regroup5(head, Chain(xs[1..]), Chain(ys));
    }
  }

  lemma Regroup5(a: string, b: string, c: string)
    ensures a + "." + (b + "." + c) == a + "." + b + "." + c
  {
  }

  /** The first command with the root identifier put before its name. */
  function QualifyFirst(root: string, commands: seq<Command>): seq<Command>
    requires commands != []
  {
    [Command(root + commands[0].name, commands[0].params)] + commands[1..]
  }

  /** The root identifier becomes part of the first call's name and nothing else. */
  lemma RootQualifiesFirstCommand(commands: seq<Command>, fluentnao: string, blockingSuffix: string)
    requires commands != []
    ensures CommandsToText(commands, false, fluentnao, blockingSuffix)
         == Chain(QualifyFirst(fluentnao, commands))
  {
    var q := QualifyFirst(fluentnao, commands);
    var first, tail := RenderCommand(commands[0]), ChainTail(commands);
    ChainSplit(commands);
    ChainSplit(q);
    assert q[1..] == commands[1..];
    assert ChainTail(q) == tail;
    RenderQualified(fluentnao, commands[0]);
    assert CommandsToText(commands, false, fluentnao, blockingSuffix) == fluentnao + (first + tail) + "";
    Regroup3(fluentnao, first, tail);
  }

  /** A root put before a command's name comes before its whole rendering. */
  lemma RenderQualified(root: string, c: Command)
    ensures RenderCommand(Command(root + c.name, c.params)) == root + RenderCommand(c)
  {
    var n, ps := c.name, JoinParams(c.params);
    assert RenderCommand(Command(root + n, c.params)) == (root + n) + "(" + ps + ")";
    assert RenderCommand(c) == n + "(" + ps + ")";
    Assoc4(root, n, "(", ps);
  }

  /** What follows the first call in a chain. */
  function ChainTail(commands: seq<Command>): string
    requires commands != []
  {
    if |commands| == 1 then "" else "." + Chain(commands[1..])
  }

  lemma ChainSplit(commands: seq<Command>)
    requires commands != []
    ensures Chain(commands) == RenderCommand(commands[0]) + ChainTail(commands)
  {
    if |commands| > 1 {
      assert RenderCommand(commands[0]) + "." + Chain(commands[1..])
          == RenderCommand(commands[0]) + ("." + Chain(commands[1..]));
    } else {
      assert RenderCommand(commands[0]) + "" == RenderCommand(commands[0]);
    }
  }

  // Concatenation identities. Each is one regrouping of a concatenation; they
  // are separate lemmas so that the string proofs of this module stay small and stable
  // across solver seeds.

  lemma Regroup3(a: string, b: string, c: string)
    ensures a + (b + c) + "" == (a + b) + c
  {
  }

  lemma Assoc4(a: string, b: string, c: string, d: string)
    ensures (a + b) + c + d + ")" == a + (b + c + d + ")")
  {
  }

  lemma Regroup4(a: string, b: string, c: string, t: string)
    ensures a + b + c + ")" + t == a + (b + (c + ")" + t))
  {
  }

  /** Blocking adds its marker after the chain and changes nothing before it. */
  lemma BlockingAppendsSuffix(commands: seq<Command>, fluentnao: string, blockingSuffix: string)
    requires commands != []
    ensures CommandsToText(commands, true, fluentnao, blockingSuffix)
         == CommandsToText(commands, false, fluentnao, blockingSuffix) + blockingSuffix
  {
  }

  /** Two commands render as the two single renderings joined by exactly one dot,
      the second name written as given. */
  lemma TwoCommandsText(a: Command, b: Command)
    ensures CommandsToText([a, b])
         == CommandsToText([a]) + "."
          + CommandsToText([b])
  {
    DefaultOptionsText([a, b]);
    DefaultOptionsText([a]);
    DefaultOptionsText([b]);
    assert [a, b][1..] == [b];
  }

  // ---------------------------------------------------------------------------
  // The scenarios the renderer's tests fix.

  lemma EmptyListText(isBlocking: bool, fluentnao: string, blockingSuffix: string)
    ensures CommandsToText([], isBlocking, fluentnao, blockingSuffix) == ""
  {
  }

  lemma ZerosText()
    ensures JoinParams([0, 0, 0]) == "0,0,0"
  {
    assert IntToString(0) == "0";
    assert [0, 0, 0][1..] == [0, 0];
    assert [0, 0][1..] == [0];
  }

  lemma OneCommandExample()
    ensures CommandsToText([Command("arms.forward", [0, 0, 0])])
         == "arms.forward(0,0,0)"
  {
    ZerosText();
    DefaultOptionsText([Command("arms.forward", [0, 0, 0])]);
  }

  lemma RenderZerosCommand(name: string)
    ensures RenderCommand(Command(name, [0, 0, 0])) == name + "(0,0,0)"
  {
    ZerosText();
    assert name + "(" + "0,0,0" + ")" == name + "(0,0,0)";
  }

  lemma TwoCommandsExample()
    ensures CommandsToText([Command("arms.left_forward", [0, 0, 0]),
                            Command("right_forward", [0, 0, 0])])
         == "arms.left_forward(0,0,0).right_forward(0,0,0)"
  {
    var a, b := Command("arms.left_forward", [0, 0, 0]), Command("right_forward", [0, 0, 0]);
    TwoCommandsText(a, b);
    DefaultOptionsText([a]);
    DefaultOptionsText([b]);
    RenderZerosCommand("arms.left_forward");
    RenderZerosCommand("right_forward");
    TwoCommandsLiteral();
  }

  lemma TwoCommandsLiteral()
    ensures "arms.left_forward" + "(0,0,0)" + "." + ("right_forward" + "(0,0,0)")
         == "arms.left_forward(0,0,0).right_forward(0,0,0)"
  {
    var x, y := "arms.left_forward(0,0,0)", "right_forward(0,0,0)";
    assert "arms.left_forward" + "(0,0,0)" == x;
    assert "right_forward" + "(0,0,0)" == y;
  }
}
