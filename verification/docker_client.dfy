/** The shared engine client of src/lib/docker.ts: a lazily built instance
    bound to Colima's socket, the facade that delegates to it,
    `testConnection`, and the command-line fallbacks of `listContainers` and
    `listImages`, which parse `|`-separated lines printed by the docker CLI.

    Engine calls are oracles of type `Handle -> ...`; a command's output is an
    `Option<string>` (`None` when the command fails). Calls are sequential. */
module DockerClient {
  import opened Wrappers
  import JsString
  import opened ProviderResolver

  /** A dockerode client: all that matters here is the socket it was built for. */
  datatype Handle = Handle(socketPath: string)

  /** The module-level `dockerInstance`, `None` while still `null`. */
  datatype Manager = Manager(instance: Option<Handle>)

  /** The instance before any call. */
  const Initial: Manager := Manager(None)

  /** `getDockerSocketPath()` of this file: always Colima's context, whatever
      provider the user stored; there is no provider argument at all. */
  function ClientSocketPath(env: Env): (path: string)
    ensures Resolve("colima", env) == Ok(Resolution(path, Some(ColimaContextInspect)))
    ensures env.colimaContext.None? ==> path == "/Users/" + UserText(env) + "/.colima/default/docker.sock"
  {
    ResolveColima(env);
    ColimaSocket(env).path
  }

  /** What `getDockerInstance()` hands back, and whether it had to resolve a socket. */
  datatype Acquired = Acquired(manager: Manager, handle: Handle, resolved: bool)

  /** `getDockerInstance()`: resolve and build on first use, afterwards reuse. */
  function GetInstance(m: Manager, env: Env): (r: Acquired)
    ensures r.manager.instance == Some(r.handle)
    ensures r.resolved <==> m.instance.None?
    ensures m.instance.Some? ==> r.handle == m.instance.value && r.manager == m
    ensures m.instance.None? ==> r.handle.socketPath == ClientSocketPath(env)
  {
    match m.instance
    case Some(h) => Acquired(m, h, false)
    case None =>
      var h := Handle(ClientSocketPath(env));
      Acquired(Manager(Some(h)), h, true)
  }

  /** Once built, the instance is handed out unchanged and the socket is never
      resolved again, even if the discovery command would now answer differently. */
  lemma InstanceIsStable(m: Manager, env1: Env, env2: Env)
    ensures var a := GetInstance(m, env1);
      var b := GetInstance(a.manager, env2);
      b.handle == a.handle && !b.resolved && b.manager == a.manager
  {
  }

  /** Two calls from a fresh start resolve once and share one client bound to Colima's socket. */
  lemma FirstCallBuildsOnce(env1: Env, env2: Env)
    ensures var a := GetInstance(Initial, env1);
      var b := GetInstance(a.manager, env2);
      a.resolved && !b.resolved && b.handle == a.handle && a.handle.socketPath == ClientSocketPath(env1)
  {
  }

  /** Every facade member (`listContainers`, `listImages`, `info`,
      `getContainer(id).logs`, `getDockerInstance`): obtain the instance, then
      hand the call to it. */
  function Delegate<T>(m: Manager, env: Env, op: Handle -> T): (r: (Manager, T))
    ensures r.0.instance.Some?
    ensures r.1 == op(r.0.instance.value)
    ensures m.instance.Some? ==> r.0 == m
    ensures m.instance.None? ==> r.0.instance.value.socketPath == ClientSocketPath(env)
  {
    var a := GetInstance(m, env);
    (a.manager, op(a.handle))
  }

  /** `testConnection()`: true exactly when `info()` resolves; a rejection is
      caught and reported as false, so it never throws. `info` answers for a
      client whether its `info()` call resolves. */
  function TestConnection(m: Manager, env: Env, info: Handle -> bool): (r: (Manager, bool))
    ensures r.0.instance.Some?
    ensures r.1 <==> info(r.0.instance.value)
    ensures r.0.instance.value == GetInstance(m, env).handle
  {
    Delegate(m, env, info)
  }

  // ---------------------------------------------------------------- CLI fallback

  /** `stdout.trim().split('\n').filter(line => line)`. */
  function OutputLines(stdout: string): (lines: seq<string>)
    ensures forall k :: 0 <= k < |lines| ==> lines[k] != "" && '\n' !in lines[k]
    ensures JsString.IsBlank(stdout) ==> lines == []
    ensures !JsString.IsBlank(stdout) && '\n' !in JsString.Trim(stdout) ==> lines == [JsString.Trim(stdout)]
  {
    var t := JsString.Trim(stdout);
    var parts := JsString.Split(t, '\n');
    var lines := JsString.NonEmpty(parts);
    assert forall k :: 0 <= k < |lines| ==> lines[k] in parts;
    if t != "" && '\n' !in t then
      JsString.SplitJoin([t], '\n');
      JsString.NonEmptyOne(t);
      lines
    else lines
  }

  /** Element `i` of a destructured `line.split('|')`, `None` when it is `undefined`. */
  function Field(fields: seq<string>, i: nat): Option<string> {
    if i < |fields| then Some(fields[i]) else None
  }

  /** A container as the `docker ps` fallback reports it: `{ Id, Names: [Names], State }`. */
  datatype CliContainer = CliContainer(id: string, names: seq<Option<string>>, state: Option<string>)

  /** An image as the `docker images` fallback reports it: `{ repo, tag, id, created, size }`. */
  datatype CliImage = CliImage(repo: string, tag: Option<string>, id: Option<string>, created: Option<string>, size: Option<string>)

  /** `const [Id, Names, State] = line.split('|')`: the ID runs up to the
      first `|` (or is the whole line), the name from there up to the second,
      and the state up to the third; a field past the last `|` is `undefined`. */
  function ContainerOfLine(line: string): (c: CliContainer)
    ensures |c.names| == 1
    ensures '|' !in c.id && JsString.StartsWith(line, c.id)
    ensures c.names[0].None? <==> '|' !in line
    ensures c.names[0].None? ==> c.id == line && c.state.None?
    ensures c.names[0].Some? ==>
      var n := c.names[0].value; var e := |c.id| + 1 + |n|;
      && line[|c.id|] == '|' && '|' !in n && e <= |line| && line[|c.id| + 1..e] == n
      && (e == |line| <==> c.state.None?)
    ensures c.state.Some? ==>
      && c.names[0].Some?
      && var e := |c.id| + 1 + |c.names[0].value|; var st := c.state.value;
      && line[e] == '|' && '|' !in st && e + 1 + |st| <= |line| && line[e + 1..e + 1 + |st|] == st
      && (e + 1 + |st| == |line| || line[e + 1 + |st|] == '|')
  {
    var f := JsString.Split(line, '|');
    ContainerPieces(line);
    CliContainer(f[0], [Field(f, 1)], Field(f, 2))
  }

  /** Where the first three `|`-pieces of a line sit in it. */
  lemma ContainerPieces(line: string)
    ensures var f := JsString.Split(line, '|');
      && JsString.StartsWith(line, f[0])
      && (|f| == 1 <==> '|' !in line)
      && (|f| == 1 ==> f[0] == line)
      && (|f| > 1 ==>
        var e := |f[0]| + 1 + |f[1]|;
        |f[0]| < e <= |line| && line[|f[0]|] == '|' && line[|f[0]| + 1..e] == f[1] && (e == |line| <==> |f| == 2))
      && (|f| > 2 ==>
        var e := |f[0]| + 1 + |f[1]|; var e2 := e + 1 + |f[2]|;
        e < e2 <= |line| && line[e] == '|' && line[e + 1..e2] == f[2] && (e2 == |line| || line[e2] == '|'))
  {
    FirstPiece(line);
    SecondPiece(line);
    ThirdPiece(line);
  }

  lemma {:induction false} FirstPiece(line: string)
    ensures var f := JsString.Split(line, '|');
      && JsString.StartsWith(line, f[0])
      && (|f| == 1 <==> '|' !in line)
      && (|f| == 1 ==> f[0] == line)
  {
    var f := JsString.Split(line, '|');
    assert line[0..] == line;
    NextPiece(line, 0, f);
    if |f| > 1 {
      assert line[|f[0]|] == '|';
    } else {
      assert line == line[0..|f[0]|];
    }
  }

  lemma {:induction false} SecondPiece(line: string)
    ensures var f := JsString.Split(line, '|');
      |f| > 1 ==>
        var e := |f[0]| + 1 + |f[1]|;
        |f[0]| < e <= |line| && line[|f[0]|] == '|' && line[|f[0]| + 1..e] == f[1] && (e == |line| <==> |f| == 2)
  {
    var f := JsString.Split(line, '|');
    assert line[0..] == line;
    if |f| > 1 {
      TwoPiecesAt(line, 0, f);
    }
  }

  lemma {:induction false} ThirdPiece(line: string)
    ensures var f := JsString.Split(line, '|');
      |f| > 2 ==>
        var e := |f[0]| + 1 + |f[1]|; var e2 := e + 1 + |f[2]|;
        e < e2 <= |line| && line[e] == '|' && line[e + 1..e2] == f[2] && (e2 == |line| || line[e2] == '|')
  {
    var f := JsString.Split(line, '|');
    JsString.SplitStep(line, '|');
    if |f| > 2 {
      ThirdPieceOf(line, f, f[1..]);
    }
  }

  lemma {:induction false} ThirdPieceOf(line: string, f: seq<string>, g: seq<string>)
    requires |f| > 2 && g == f[1..] && |f[0]| < |line|
    requires JsString.Split(line[|f[0]| + 1..], '|') == g
    ensures var e := |f[0]| + 1 + |f[1]|; var e2 := e + 1 + |f[2]|;
      e < e2 <= |line| && line[e] == '|' && line[e + 1..e2] == f[2] && (e2 == |line| || line[e2] == '|')
  {
    assert g[0] == f[1] && g[1] == f[2] && |g| > 1;
    TwoPiecesAt(line, |f[0]| + 1, g);
  }

  /** From `i` on, the next two pieces and the `|` between and after them. */
  lemma {:induction false} TwoPiecesAt(line: string, i: nat, g: seq<string>)
    requires i <= |line| && JsString.Split(line[i..], '|') == g && |g| > 1
    ensures var e := i + |g[0]| + 1 + |g[1]|;
      && i + |g[0]| < e <= |line| && line[i + |g[0]|] == '|' && line[i + |g[0]| + 1..e] == g[1]
      && (e == |line| <==> |g| == 2) && (e < |line| ==> line[e] == '|')
  {
    NextPiece(line, i, g);
    var h := g[1..];
    assert h[0] == g[1];
    NextPiece(line, i + |g[0]| + 1, h);
  }

  /** The rest of a line from `i` on, split, begins with its next piece. */
  lemma {:induction false} NextPiece(line: string, i: nat, g: seq<string>)
    requires i <= |line| && JsString.Split(line[i..], '|') == g
    ensures |g| >= 1 && i + |g[0]| <= |line| && line[i..i + |g[0]|] == g[0]
    ensures i + |g[0]| == |line| <==> |g| == 1
    ensures |g| > 1 ==> line[i + |g[0]|] == '|' && JsString.Split(line[i + |g[0]| + 1..], '|') == g[1..]
  {
    var t := line[i..];
    JsString.SplitStep(t, '|');
    assert line[i..i + |g[0]|] == t[..|g[0]|];
    if |g| > 1 {
      assert t[|g[0]| + 1..] == line[i + |g[0]| + 1..];
    }
  }

  /** `const [repo, tag, id, created, size] = line.split('|')`: the first three
      fields sit where `ContainerOfLine` finds Id, Names and State, and the
      last three are read the same way from just after the second `|`; each
      field past the last `|` is `undefined`. */
  function ImageOfLine(line: string): (i: CliImage)
    ensures var c := ContainerOfLine(line); i.repo == c.id && i.tag == c.names[0] && i.id == c.state
    ensures i.id.None? ==> i.created.None? && i.size.None?
    ensures i.id.Some? ==>
      var e := |i.repo| + 1 + |i.tag.value| + 1;
      e <= |line| && ContainerOfLine(line[e..]) == CliContainer(i.id.value, [i.created], i.size)
  {
    var f := JsString.Split(line, '|');
    var i := CliImage(f[0], Field(f, 1), Field(f, 2), Field(f, 3), Field(f, 4));
    if |f| >= 3 then ImageTail(line, f); i else i
  }

  /** From just after the second `|` on, a line splits into its third and later pieces. */
  lemma {:induction false} ImageTail(line: string, f: seq<string>)
    requires f == JsString.Split(line, '|') && |f| >= 3
    ensures var e := |f[0]| + 1 + |f[1]| + 1; e <= |line| && JsString.Split(line[e..], '|') == f[2..]
  {
    assert line[0..] == line;
    NextPiece(line, 0, f);
    var e1 := |f[0]| + 1;
    NextPiece(line, e1, f[1..]);
    assert f[1..][1..] == f[2..];
  }

  /** Printed output with a blank line between two blocks reads back as both
      blocks in order: the empty line is dropped and nothing else is. */
  lemma BlankLineDropped(a: seq<string>, b: seq<string>)
    requires forall k :: 0 <= k < |a| ==> a[k] != "" && '\n' !in a[k]
    requires forall k :: 0 <= k < |b| ==> b[k] != "" && '\n' !in b[k]
    requires |a| > 0 ==> !JsString.IsWhitespace(a[0][0])
    requires |a| > 0 ==> var last := a[|a| - 1]; !JsString.IsWhitespace(last[|last| - 1])
    requires |b| > 0 ==> !JsString.IsWhitespace(b[0][0])
    requires |b| > 0 ==> var last := b[|b| - 1]; !JsString.IsWhitespace(last[|last| - 1])
    ensures OutputLines(RenderLines(a) + "\n" + RenderLines(b)) == a + b
  {
    if |a| == 0 {
      assert a == [];
      BlankLineFirst(b);
      assert a + b == b;
    } else if |b| == 0 {
      assert b == [];
      BlankLineLast(a);
      assert a + b == a;
    } else {
      var s := RenderLines(a) + "\n" + RenderLines(b);
      BlankLineText(a, b);
      BlankLinePieces(a, b);
      LinesOfTrimmed(s, a + [""] + b);
    }
  }

  /** A blank line before printed lines is dropped. */
  lemma BlankLineFirst(b: seq<string>)
    requires forall k :: 0 <= k < |b| ==> b[k] != "" && '\n' !in b[k]
    requires |b| > 0 ==> !JsString.IsWhitespace(b[0][0])
    requires |b| > 0 ==> var last := b[|b| - 1]; !JsString.IsWhitespace(last[|last| - 1])
    ensures OutputLines(RenderLines([]) + "\n" + RenderLines(b)) == b
  {
    var s := RenderLines([]) + "\n" + RenderLines(b);
    assert s == ['\n'] + RenderLines(b);
    JsString.TrimDropsLeadingWhitespace(RenderLines(b), '\n');
    SameTrimSameLines(s, RenderLines(b));
    LinesRoundTrip(b);
  }

  /** A blank line after printed lines is dropped. */
  lemma BlankLineLast(a: seq<string>)
    requires |a| > 0
    requires forall k :: 0 <= k < |a| ==> a[k] != "" && '\n' !in a[k]
    requires !JsString.IsWhitespace(a[0][0])
    requires var last := a[|a| - 1]; !JsString.IsWhitespace(last[|last| - 1])
    ensures OutputLines(RenderLines(a) + "\n" + RenderLines([])) == a
  {
    var s := RenderLines(a) + "\n" + RenderLines([]);
    assert s == RenderLines(a) + "\n";
    TrailingBlankLine(a);
    SameTrimSameLines(s, RenderLines(a));
    LinesRoundTrip(a);
  }

  /** Output that trims alike reads back alike. */
  lemma SameTrimSameLines(s: string, t: string)
    requires JsString.Trim(s) == JsString.Trim(t)
    ensures OutputLines(s) == OutputLines(t)
  {
  }

  /** Output trimming to newline-free pieces joined by newlines reads back as
      the non-empty pieces. */
  lemma LinesOfTrimmed(s: string, pieces: seq<string>)
    requires |pieces| >= 1 && forall k :: 0 <= k < |pieces| ==> '\n' !in pieces[k]
    requires JsString.Trim(s) == JsString.Join(pieces, '\n')
    ensures OutputLines(s) == JsString.NonEmpty(pieces)
  {
    JsString.SplitJoin(pieces, '\n');
  }

  /** One more newline after printed lines trims away. */
  lemma TrailingBlankLine(a: seq<string>)
    requires |a| > 0 && forall k :: 0 <= k < |a| ==> a[k] != ""
    requires !JsString.IsWhitespace(a[0][0])
    requires var last := a[|a| - 1]; !JsString.IsWhitespace(last[|last| - 1])
    ensures JsString.Trim(RenderLines(a) + "\n") == JsString.Trim(RenderLines(a))
  {
    var ja := JsString.Join(a, '\n');
    JsString.JoinEnds(a, '\n');
    var last := a[|a| - 1];
    assert ja[0] == a[0][0] && ja[|ja| - 1] == last[|last| - 1];
    var r := ja + "\n";
    assert RenderLines(a) == r;
    assert r[..|r| - 1] == ja;
    JsString.TrimDropsTrailingNewline(r);
    JsString.TrimLineEnd(ja);
  }

  /** Two printed blocks with a blank line between trim to the join of both
      blocks' lines with an empty line between. */
  lemma BlankLineText(a: seq<string>, b: seq<string>)
    requires |a| > 0 && |b| > 0
    requires forall k :: 0 <= k < |a| ==> a[k] != ""
    requires forall k :: 0 <= k < |b| ==> b[k] != ""
    requires !JsString.IsWhitespace(a[0][0])
    requires var last := b[|b| - 1]; !JsString.IsWhitespace(last[|last| - 1])
    ensures JsString.Trim(RenderLines(a) + "\n" + RenderLines(b)) == JsString.Join(a + [""] + b, '\n')
  {
    var ja := JsString.Join(a, '\n');
    var jb := JsString.Join(b, '\n');
    JsString.JoinAppend(a, [""] + b, '\n');
    JsString.JoinAppend([""], b, '\n');
    assert a + ([""] + b) == a + [""] + b;
    var body := JsString.Join(a + [""] + b, '\n');
    assert body == ja + "\n" + "\n" + jb;
    JsString.JoinEnds(a, '\n');
    JsString.JoinEnds(b, '\n');
    var last := b[|b| - 1];
    assert body[0] == a[0][0];
    assert body[|body| - 1] == last[|last| - 1];
    assert RenderLines(a) + "\n" + RenderLines(b) == body + "\n";
    JsString.TrimLineEnd(body);
  }

  /** Both blocks' lines with an empty line between: newline-free pieces whose
      non-empty ones are the two blocks in order. */
  lemma BlankLinePieces(a: seq<string>, b: seq<string>)
    requires forall k :: 0 <= k < |a| ==> a[k] != "" && '\n' !in a[k]
    requires forall k :: 0 <= k < |b| ==> b[k] != "" && '\n' !in b[k]
    ensures var pieces := a + [""] + b;
      (forall k :: 0 <= k < |pieces| ==> '\n' !in pieces[k]) && JsString.NonEmpty(pieces) == a + b
  {
    var pieces := a + [""] + b;
    forall k | 0 <= k < |pieces|
      ensures '\n' !in pieces[k]
    {
      if k > |a| {
        assert pieces[k] == b[k - |a| - 1];
      } else if k < |a| {
        assert pieces[k] == a[k];
      }
    }
    assert pieces == a + ([""] + b);
    JsString.NonEmptyAppend(a, [""] + b);
    JsString.NonEmptyAppend([""], b);
    JsString.NonEmptyOne("");
    JsString.NonEmptyKeepsAll(a);
    JsString.NonEmptyKeepsAll(b);
  }

  /** The `docker ps` parser: one record per non-empty output line, in order. */
  function ParseContainers(stdout: string): (rows: seq<CliContainer>)
    ensures |rows| == |OutputLines(stdout)|
    ensures forall k :: 0 <= k < |rows| ==> rows[k] == ContainerOfLine(OutputLines(stdout)[k])
    ensures JsString.IsBlank(stdout) ==> rows == []
  {
    var lines := OutputLines(stdout);
    seq(|lines|, k requires 0 <= k < |lines| => ContainerOfLine(lines[k]))
  }

  /** The `docker images` parser: one record per non-empty output line, in order. */
  function ParseImages(stdout: string): (rows: seq<CliImage>)
    ensures |rows| == |OutputLines(stdout)|
    ensures forall k :: 0 <= k < |rows| ==> rows[k] == ImageOfLine(OutputLines(stdout)[k])
    ensures JsString.IsBlank(stdout) ==> rows == []
  {
    var lines := OutputLines(stdout);
    seq(|lines|, k requires 0 <= k < |lines| => ImageOfLine(lines[k]))
  }

  // ------------------------------------------- what the CLI prints, and parsing it back

  /** What the CLI prints for these lines: each followed by a newline. */
  function RenderLines(lines: seq<string>): string {
    if |lines| == 0 then "" else JsString.Join(lines, '\n') + "\n"
  }

  /** The lines printed for a table of fields, each row's fields joined by `|`. */
  function TableLines(table: seq<seq<string>>): (lines: seq<string>)
    ensures |lines| == |table|
    ensures forall k :: 0 <= k < |table| ==> lines[k] == JsString.Join(table[k], '|')
  {
    seq(|table|, k requires 0 <= k < |table| => JsString.Join(table[k], '|'))
  }

  /** A field value the CLI can print inside one `|`-separated line. */
  predicate CleanField(f: string) {
    '|' !in f && '\n' !in f
  }

  /** A row of two or more clean fields whose printed line has no whitespace at either end. */
  predicate CleanRow(fields: seq<string>) {
    && |fields| >= 2
    && (forall k :: 0 <= k < |fields| ==> CleanField(fields[k]))
    && (fields[0] == "" || !JsString.IsWhitespace(fields[0][0]))
    && var last := fields[|fields| - 1]; (last == "" || !JsString.IsWhitespace(last[|last| - 1]))
  }

  /** The printed line of a clean row is non-empty, has no newline or edge whitespace. */
  lemma CleanRowLine(fields: seq<string>)
    requires CleanRow(fields)
    ensures var line := JsString.Join(fields, '|');
      && line != "" && '\n' !in line
      && !JsString.IsWhitespace(line[0]) && !JsString.IsWhitespace(line[|line| - 1])
      && JsString.Split(line, '|') == fields
  {
    var line := JsString.Join(fields, '|');
    JsString.JoinFront(fields, '|');
    JsString.JoinBack(fields, '|');
    JsString.SplitJoin(fields, '|');
    JoinKeepsOut(fields, '|', '\n');
  }

  /** A character in no piece, other than the separator, is not in the join. */
  lemma {:induction false} JoinKeepsOut(parts: seq<string>, sep: char, c: char)
    requires c != sep
    requires forall k :: 0 <= k < |parts| ==> c !in parts[k]
    ensures c !in JsString.Join(parts, sep)
  {
    if |parts| > 1 {
      JoinKeepsOut(parts[1..], sep, c);
    }
  }

  /** Reading back printed lines gives those lines, when none is empty, none
      holds a newline, and the output has no whitespace at either end. */
  lemma {:induction false} LinesRoundTrip(lines: seq<string>)
    requires forall k :: 0 <= k < |lines| ==> lines[k] != "" && '\n' !in lines[k]
    requires |lines| > 0 ==> !JsString.IsWhitespace(lines[0][0])
    requires |lines| > 0 ==> var last := lines[|lines| - 1]; !JsString.IsWhitespace(last[|last| - 1])
    ensures OutputLines(RenderLines(lines)) == lines
  {
    if |lines| == 0 {
      assert JsString.Trim("") == "";
      assert JsString.Split("", '\n') == [""];
    } else {
      var body := JsString.Join(lines, '\n');
      JsString.JoinEnds(lines, '\n');
      var last := lines[|lines| - 1];
      assert body[0] == lines[0][0];
      assert body[|body| - 1] == last[|last| - 1];
      JsString.TrimLineEnd(body);
      JsString.SplitJoin(lines, '\n');
      JsString.NonEmptyKeepsAll(lines);
    }
  }

  /** The rows `docker ps --format "{{.ID}}|{{.Names}}|{{.State}}"` prints. */
  datatype PsRow = PsRow(id: string, name: string, state: string)

  function PsFields(r: PsRow): seq<string> {
    [r.id, r.name, r.state]
  }

  function PsTable(rows: seq<PsRow>): seq<seq<string>> {
    seq(|rows|, k requires 0 <= k < |rows| => PsFields(rows[k]))
  }

  function RenderPs(rows: seq<PsRow>): string {
    RenderLines(TableLines(PsTable(rows)))
  }

  /** The container fallback reads back exactly the rows the CLI printed, in
      order, each as `{ Id, Names: [name], State }`, when every row is clean. */
  lemma ContainerParserRoundTrip(rows: seq<PsRow>)
    requires forall k :: 0 <= k < |rows| ==> CleanRow(PsFields(rows[k]))
    ensures var parsed := ParseContainers(RenderPs(rows));
      |parsed| == |rows|
      && forall k :: 0 <= k < |rows| ==>
        parsed[k] == CliContainer(rows[k].id, [Some(rows[k].name)], Some(rows[k].state))
  {
    var table := PsTable(rows);
    PrintedLinesReadBack(table);
    var lines := TableLines(table);
    var parsed := ParseContainers(RenderPs(rows));
    forall k | 0 <= k < |rows|
      ensures parsed[k] == CliContainer(rows[k].id, [Some(rows[k].name)], Some(rows[k].state))
    {
      assert parsed[k] == ContainerOfLine(lines[k]);
      assert lines[k] == JsString.Join(PsFields(rows[k]), '|');
      PsRowReadsBack(rows[k]);
    }
  }

  /** One clean `docker ps` row reads back as itself. */
  lemma PsRowReadsBack(r: PsRow)
    requires CleanRow(PsFields(r))
    ensures ContainerOfLine(JsString.Join(PsFields(r), '|')) == CliContainer(r.id, [Some(r.name)], Some(r.state))
  {
    CleanRowLine(PsFields(r));
  }

  /** The rows `docker images --format "{{.Repository}}|{{.Tag}}|{{.ID}}|{{.CreatedSince}}|{{.Size}}"` prints. */
  datatype ImagesRow = ImagesRow(repo: string, tag: string, id: string, created: string, size: string)

  function ImagesFields(r: ImagesRow): seq<string> {
    [r.repo, r.tag, r.id, r.created, r.size]
  }

  function ImagesTable(rows: seq<ImagesRow>): seq<seq<string>> {
    seq(|rows|, k requires 0 <= k < |rows| => ImagesFields(rows[k]))
  }

  function RenderImages(rows: seq<ImagesRow>): string {
    RenderLines(TableLines(ImagesTable(rows)))
  }

  /** The image fallback reads back exactly the rows the CLI printed, in order. */
  lemma ImageParserRoundTrip(rows: seq<ImagesRow>)
    requires forall k :: 0 <= k < |rows| ==> CleanRow(ImagesFields(rows[k]))
    ensures var parsed := ParseImages(RenderImages(rows));
      |parsed| == |rows|
      && forall k :: 0 <= k < |rows| ==>
        parsed[k] == CliImage(rows[k].repo, Some(rows[k].tag), Some(rows[k].id), Some(rows[k].created), Some(rows[k].size))
  {
    var table := ImagesTable(rows);
    PrintedLinesReadBack(table);
    var lines := TableLines(table);
    var parsed := ParseImages(RenderImages(rows));
    forall k | 0 <= k < |rows|
      ensures parsed[k] == CliImage(rows[k].repo, Some(rows[k].tag), Some(rows[k].id), Some(rows[k].created), Some(rows[k].size))
    {
      assert parsed[k] == ImageOfLine(lines[k]);
      assert lines[k] == JsString.Join(ImagesFields(rows[k]), '|');
      ImagesRowReadsBack(rows[k]);
    }
  }

  /** One clean `docker images` row reads back as itself. */
  lemma ImagesRowReadsBack(r: ImagesRow)
    requires CleanRow(ImagesFields(r))
    ensures ImageOfLine(JsString.Join(ImagesFields(r), '|')) == CliImage(r.repo, Some(r.tag), Some(r.id), Some(r.created), Some(r.size))
  {
    CleanRowLine(ImagesFields(r));
  }

  /** The printed lines of clean rows read back as themselves. */
  lemma PrintedLinesReadBack(table: seq<seq<string>>)
    requires forall k :: 0 <= k < |table| ==> CleanRow(table[k])
    ensures OutputLines(RenderLines(TableLines(table))) == TableLines(table)
  {
    var lines := TableLines(table);
    forall k | 0 <= k < |lines|
      ensures lines[k] != "" && '\n' !in lines[k]
      ensures !JsString.IsWhitespace(lines[k][0]) && !JsString.IsWhitespace(lines[k][|lines[k]| - 1])
    {
      CleanRowLine(table[k]);
    }
    LinesRoundTrip(lines);
  }

  /** A line with fewer fields leaves the missing ones `undefined`. */
  lemma ShortLineLeavesFieldsUndefined(id: string)
    requires id != "" && '|' !in id
    ensures ContainerOfLine(id) == CliContainer(id, [None], None)
  {
    JsString.SplitJoin([id], '|');
  }

  // ------------------------------------------------------------ listing with fallback

  /** The answer of `listContainers()`: the engine's list, or the CLI's. */
  datatype ContainerListing<C> =
    | EngineContainers(containers: seq<C>, runningCount: nat)
    | CliContainers(rows: seq<CliContainer>, runningCount: nat)

  /** `listContainers()`: the engine's list when it answers, else `docker ps`
      parsed; a failing `docker ps` rejects. `runningCount` is always the
      number of containers returned. */
  function ListContainers<C>(m: Manager, env: Env, engine: Handle -> Result<seq<C>>, ps: Option<string>)
    : (r: (Manager, Result<ContainerListing<C>>))
    ensures r.0.instance.Some?
    ensures r.1.Err? <==> engine(r.0.instance.value).Err? && ps.None?
    ensures r.1.Ok? && r.1.value.EngineContainers? ==>
      engine(r.0.instance.value).Ok? && r.1.value.containers == engine(r.0.instance.value).value
    ensures r.1.Ok? && r.1.value.CliContainers? ==>
      engine(r.0.instance.value).Err? && ps.Some? && r.1.value.rows == ParseContainers(ps.value)
    ensures r.1.Ok? ==>
      r.1.value.runningCount == (if r.1.value.EngineContainers? then |r.1.value.containers| else |r.1.value.rows|)
  {
    var (m', listed) := Delegate(m, env, engine);
    match listed
    case Ok(cs) => (m', Ok(EngineContainers(cs, |cs|)))
    case Err(_) =>
      match ps
      case None => (m', Err("docker ps failed"))
      case Some(out) =>
        var rows := ParseContainers(out);
        (m', Ok(CliContainers(rows, |rows|)))
  }

  /** The answer of `listImages()`: the engine's list, or the CLI's. */
  datatype ImageListing<I> = EngineImages(images: seq<I>) | CliImages(rows: seq<CliImage>)

  /** `listImages()`: the engine's list when it answers, else `docker images`
      parsed; a failing `docker images` rejects. */
  function ListImages<I>(m: Manager, env: Env, engine: Handle -> Result<seq<I>>, images: Option<string>)
    : (r: (Manager, Result<ImageListing<I>>))
    ensures r.0.instance.Some?
    ensures r.1.Err? <==> engine(r.0.instance.value).Err? && images.None?
    ensures r.1.Ok? && r.1.value.EngineImages? ==>
      engine(r.0.instance.value).Ok? && r.1.value.images == engine(r.0.instance.value).value
    ensures r.1.Ok? && r.1.value.CliImages? ==>
      engine(r.0.instance.value).Err? && images.Some? && r.1.value.rows == ParseImages(images.value)
  {
    var (m', listed) := Delegate(m, env, engine);
    match listed
    case Ok(found) => (m', Ok(EngineImages(found)))
    case Err(_) =>
      match images
      case None => (m', Err("docker images failed"))
      case Some(out) => (m', Ok(CliImages(ParseImages(out))))
  }
}
