/** Duration spans of emitter.py: a span emits a BEGIN event when it begins and an END event at the
    first end(), success() or fail() after that; stage() makes sub-spans. The exporter is
    synchronous: it formats an event while `export` runs. An exporter that raises loses the event,
    because the safe-call wrapper swallows the exception. */
module Spans {
  import opened Basics
  import opened Runs

  datatype Value = Flag(b: bool) | Text(s: string) | Number(n: int)

  type Dict = map<string, Value>

  datatype Kind = BEGIN | END

  datatype Event = Event(id: nat, name: string, kind: Kind, content: Dict)

  datatype Call = Begin | End | Extra(d: Dict) | Success(d: Dict) | Fail(error: string, d: Dict)

  /** A call and whether the exporter accepts the event it may emit. */
  datatype Invocation = Invocation(call: Call, ok: bool)

  datatype Span = Span(id: nat, name: string, content: Dict, begun: bool, ended: bool)

  // ---------- One span ----------

  predicate IsTerminal(c: Call) {
    c.End? || c.Success? || c.Fail?
  }

  /** What a call writes into the content, whenever it writes. */
  function Delta(c: Call): Dict {
    match c
    case Begin => map[]
    case End => map[]
    case Extra(d) => d
    case Success(d) => map["success" := Flag(true)] + d
    case Fail(error, d) => map["success" := Flag(false), "error" := Text(error)] + d
  }

  /** extra_args and extra_dict check `_is_end`; success and fail write even after the end. */
  function After(sp: Span, c: Call): Span {
    var content := if c.Extra? && sp.ended then sp.content else sp.content + Delta(c);
    Span(sp.id, sp.name, content, sp.begun || c.Begin?, sp.ended || (sp.begun && IsTerminal(c)))
  }

  /** The event a call emits, if the exporter accepts it. */
  function Emits(sp: Span, i: Invocation): seq<Event> {
    if !i.ok then []
    else if i.call.Begin? && !sp.begun then [Event(sp.id, sp.name, BEGIN, sp.content)]
    else if IsTerminal(i.call) && sp.begun && !sp.ended then
      [Event(sp.id, sp.name, END, After(sp, i.call).content)]
    else []
  }

  function AfterAll(sp: Span, cs: seq<Invocation>): Span
    decreases |cs|
  {
    if cs == [] then sp else AfterAll(After(sp, cs[0].call), cs[1..])
  }

  function EmitsAll(sp: Span, cs: seq<Invocation>): seq<Event>
    decreases |cs|
  {
    if cs == [] then [] else Emits(sp, cs[0]) + EmitsAll(After(sp, cs[0].call), cs[1..])
  }

  /** The reference: the arguments of the calls laid over each other, whatever the flags say. */
  function Overlay(d: Dict, cs: seq<Invocation>): Dict
    decreases |cs|
  {
    if cs == [] then d else Overlay(d + Delta(cs[0].call), cs[1..])
  }

  function FirstBegin(cs: seq<Invocation>): nat {
    if cs == [] || cs[0].call.Begin? then 0 else 1 + FirstBegin(cs[1..])
  }

  function FirstTerminal(cs: seq<Invocation>): nat {
    if cs == [] || IsTerminal(cs[0].call) then 0 else 1 + FirstTerminal(cs[1..])
  }

  /** The first terminal call after the first begin, or the number of calls. */
  function FirstEnd(cs: seq<Invocation>): nat {
    var b := FirstBegin(cs);
    if b >= |cs| then |cs| else b + 1 + FirstTerminal(cs[b + 1..])
  }

  /** The event of kind `k` with the content laid down by the first `n` calls, emitted by call
      number `i` if there is one and the exporter accepts it. */
  function EventAt(sp: Span, cs: seq<Invocation>, i: nat, k: Kind, n: nat): seq<Event> {
    if i < |cs| && n <= |cs| && cs[i].ok then [Event(sp.id, sp.name, k, Overlay(sp.content, cs[..n]))] else []
  }

  /** Dropping the first call of a prefix that it lays down itself. */
  lemma {:induction false} EventAtShift(sp: Span, cs: seq<Invocation>, i: nat, k: Kind, n: nat)
    requires cs != [] && i >= 1 && n >= 1 && !sp.ended
    ensures EventAt(sp, cs, i, k, n) == EventAt(After(sp, cs[0].call), cs[1..], i - 1, k, n - 1)
  {
    if n <= |cs| {
      assert cs[..n][1..] == cs[1..][..n - 1];
    }
  }

  lemma {:induction false} EndedEmitsNothing(sp: Span, cs: seq<Invocation>)
    requires sp.begun && sp.ended
    ensures EmitsAll(sp, cs) == []
    decreases |cs|
  {
    if cs != [] {
      EndedEmitsNothing(After(sp, cs[0].call), cs[1..]);
    }
  }

  lemma {:induction false} BegunEmitsEnd(sp: Span, cs: seq<Invocation>)
    requires sp.begun && !sp.ended
    ensures FirstTerminal(cs) <= |cs|
    ensures EmitsAll(sp, cs) == EventAt(sp, cs, FirstTerminal(cs), END, FirstTerminal(cs) + 1)
    decreases |cs|
  {
    if cs != [] {
      var e := FirstTerminal(cs);
      if e == 0 {
        EndedEmitsNothing(After(sp, cs[0].call), cs[1..]);
        assert cs[..1] == [cs[0]];
        assert Overlay(sp.content, [cs[0]]) == sp.content + Delta(cs[0].call);
      } else {
        BegunEmitsEnd(After(sp, cs[0].call), cs[1..]);
        EventAtShift(sp, cs, e, END, e + 1);
      }
    }
  }

  lemma {:induction false} FirstsShift(cs: seq<Invocation>)
    requires cs != []
    ensures FirstBegin(cs) <= |cs|
    ensures cs[0].call.Begin? ==> FirstBegin(cs) == 0 && FirstEnd(cs) == 1 + FirstTerminal(cs[1..])
    ensures !cs[0].call.Begin? ==>
              FirstBegin(cs) == 1 + FirstBegin(cs[1..]) && FirstEnd(cs) == 1 + FirstEnd(cs[1..])
  {
    BeginBound(cs);
    var b := FirstBegin(cs);
    if b > 0 && b < |cs| {
      assert cs[1..][b..] == cs[b + 1..];
    }
  }

  lemma {:induction false} BeginBound(cs: seq<Invocation>)
    ensures FirstBegin(cs) <= |cs|
  {
    if cs != [] {
      BeginBound(cs[1..]);
    }
  }

  /** Every sequence of calls on a new span emits BEGIN at its first begin(), with the content laid
      down by the calls before it, then END at the first terminal call after that, with the content
      laid down by all calls up to and including it, and nothing else. */
  lemma {:induction false} SpanEvents(sp: Span, cs: seq<Invocation>)
    requires !sp.begun && !sp.ended
    ensures var b, e := FirstBegin(cs), FirstEnd(cs);
            && b <= |cs| && (b < |cs| ==> b < e) && e <= |cs|
            && EmitsAll(sp, cs) == EventAt(sp, cs, b, BEGIN, b) + EventAt(sp, cs, e, END, e + 1)
    decreases |cs|
  {
    if cs != [] {
      var b, e, next := FirstBegin(cs), FirstEnd(cs), After(sp, cs[0].call);
      FirstsShift(cs);
      hide FirstEnd, FirstTerminal, FirstBegin;
      if b == 0 {
        SpanBegins(sp, cs);
      } else {
        SpanEvents(next, cs[1..]);
        EventAtShift(sp, cs, e, END, e + 1);
        EventAtShift(sp, cs, b, BEGIN, b);
        hide EventAt;
        assert Emits(sp, cs[0]) == [];
      }
    }
  }

  lemma {:induction false} SpanBegins(sp: Span, cs: seq<Invocation>)
    requires !sp.begun && !sp.ended && cs != [] && cs[0].call.Begin?
    ensures var e := 1 + FirstTerminal(cs[1..]);
            e <= |cs| && EmitsAll(sp, cs) == EventAt(sp, cs, 0, BEGIN, 0) + EventAt(sp, cs, e, END, e + 1)
  {
    var e := 1 + FirstTerminal(cs[1..]);
    BegunEmitsEnd(After(sp, cs[0].call), cs[1..]);
    EventAtShift(sp, cs, e, END, e + 1);
    assert cs[..0] == [];
  }

  /** FirstBegin and FirstEnd are what their names say. */
  lemma {:induction false} FirstsAreFirst(cs: seq<Invocation>, i: nat)
    requires i < |cs|
    ensures i == FirstBegin(cs) <==> cs[i].call.Begin? && forall j :: 0 <= j < i ==> !cs[j].call.Begin?
    ensures i == FirstEnd(cs) <==>
              && IsTerminal(cs[i].call) && FirstBegin(cs) < i
              && forall j :: FirstBegin(cs) < j < i ==> !IsTerminal(cs[j].call)
  {
    BeginFirst(cs, i);
    var b := FirstBegin(cs);
    if b < i {
      var rest := cs[b + 1..];
      TerminalFirst(rest, i - b - 1);
      forall j | b < j < i && IsTerminal(cs[j].call) ensures IsTerminal(rest[j - b - 1].call) {
      }
      forall j | 0 <= j < i - b - 1 && IsTerminal(rest[j].call) ensures IsTerminal(cs[j + b + 1].call) {
      }
    }
  }

  lemma {:induction false} BeginFirst(cs: seq<Invocation>, i: nat)
    requires i < |cs|
    ensures i == FirstBegin(cs) <==> cs[i].call.Begin? && forall j :: 0 <= j < i ==> !cs[j].call.Begin?
  {
    if i > 0 && !cs[0].call.Begin? {
      BeginFirst(cs[1..], i - 1);
      assert forall j :: 0 <= j < i - 1 ==> cs[1..][j] == cs[j + 1];
      assert forall j :: 0 < j < i ==> cs[j] == cs[1..][j - 1];
    }
  }

  lemma {:induction false} TerminalFirst(cs: seq<Invocation>, i: nat)
    requires i < |cs|
    ensures i == FirstTerminal(cs) <==> IsTerminal(cs[i].call) && forall j :: 0 <= j < i ==> !IsTerminal(cs[j].call)
  {
    if i > 0 && !IsTerminal(cs[0].call) {
      TerminalFirst(cs[1..], i - 1);
      assert forall j :: 0 <= j < i - 1 ==> cs[1..][j] == cs[j + 1];
      assert forall j :: 0 < j < i ==> cs[j] == cs[1..][j - 1];
    }
  }

  // ---------- What the calls lay down ----------

  /** What a call gives to a key, if anything. The arguments are applied last. */
  function Gives(c: Call, key: string): Option<Value> {
    if (c.Extra? || c.Success? || c.Fail?) && key in c.d then Some(c.d[key])
    else if key == "success" && c.Success? then Some(Flag(true))
    else if key == "success" && c.Fail? then Some(Flag(false))
    else if key == "error" && c.Fail? then Some(Text(c.error))
    else None
  }

  predicate Has(d: Dict, key: string, v: Value) {
    key in d && d[key] == v
  }

  /** A key has what the last call that gives it something gives it, and what it had if none does. */
  lemma {:induction false} OverlayByKey(d: Dict, cs: seq<Invocation>, key: string)
    ensures (forall i :: 0 <= i < |cs| ==> Gives(cs[i].call, key).None?) ==>
              (key in Overlay(d, cs) <==> key in d) && (key in d ==> Overlay(d, cs)[key] == d[key])
    ensures forall i :: 0 <= i < |cs| && Gives(cs[i].call, key).Some? && (forall j :: i < j < |cs| ==> Gives(cs[j].call, key).None?)
              ==> Has(Overlay(d, cs), key, Gives(cs[i].call, key).value)
    decreases |cs|
  {
    if cs != [] {
      var next := d + Delta(cs[0].call);
      DeltaByKey(d, cs[0].call, key);
      OverlayByKey(next, cs[1..], key);
      hide Gives, Delta;
      assert forall i :: 0 < i < |cs| ==> cs[i] == cs[1..][i - 1];
      assert forall i :: 0 <= i < |cs| - 1 ==> cs[1..][i] == cs[i + 1];
    }
  }

  lemma {:induction false} DeltaByKey(d: Dict, c: Call, key: string)
    ensures var next := d + Delta(c);
            if Gives(c, key).Some? then Has(next, key, Gives(c, key).value)
            else (key in next <==> key in d) && (key in d ==> next[key] == d[key])
  {
  }

  // ---------- The content an END event aliases ----------

  /** The calls that still write into the content of an ended span. */
  function Late(cs: seq<Invocation>): seq<Invocation> {
    if cs == [] then []
    else (if cs[0].call.Success? || cs[0].call.Fail? then [cs[0]] else []) + Late(cs[1..])
  }

  /** An END event holds the content dict itself, not a copy. A reader that looks at it after the
      further calls `cs` on a span whose dict nobody else writes into sees the outcome of every later success() and fail(), although only the
      first terminal call is meant to take effect. */
  lemma {:induction false} EndContentDrifts(sp: Span, cs: seq<Invocation>)
    requires sp.begun && sp.ended
    ensures AfterAll(sp, cs).content == Overlay(sp.content, Late(cs))
    decreases |cs|
  {
    if cs != [] {
      var c := cs[0].call;
      EndContentDrifts(After(sp, c), cs[1..]);
      if c.Success? || c.Fail? {
        assert Late(cs)[1..] == Late(cs[1..]);
      } else {
        assert Late(cs) == Late(cs[1..]) && After(sp, c).content == sp.content;
      }
    }
  }

  /** So the aliased content is sure to stay what it was if and only if no success() or fail()
      follows. */
  lemma {:induction false} EndContentStays(cs: seq<Invocation>)
    ensures Late(cs) == [] <==> forall sp: Span :: sp.begun && sp.ended ==> AfterAll(sp, cs).content == sp.content
  {
    hide Late, AfterAll;
    if Late(cs) == [] {
      forall sp: Span | sp.begun && sp.ended ensures AfterAll(sp, cs).content == sp.content {
        EndContentDrifts(sp, cs);
      }
    } else {
      LateChangesContent(cs);
    }
  }

  /** A later outcome that names no "success" of its own always overwrites the recorded one. */
  lemma {:induction false} LateOutcomeWins(sp: Span, cs: seq<Invocation>, c: Call)
    requires sp.begun && sp.ended
    requires (c.Success? || c.Fail?) && "success" !in c.d
    ensures Late(cs) == [] ==> AfterAll(sp, cs).content == sp.content
    ensures var content := After(AfterAll(sp, cs), c).content;
            "success" in content && content["success"] == Flag(c.Success?)
  {
    EndContentDrifts(sp, cs);
  }

  /** The first late outcome leaves its mark on an empty content. */
  lemma {:induction false} LateChangesContent(cs: seq<Invocation>)
    requires Late(cs) != []
    ensures AfterAll(Span(0, "", map[], true, true), cs).content != map[]
  {
    var first := map[] + Delta(Late(cs)[0].call);
    EndContentDrifts(Span(0, "", map[], true, true), cs);
    LateWrites(cs);
    OverlayHas(first, Late(cs)[1..], "success");
  }

  /** What is left of late calls are outcomes. */
  lemma {:induction false} LateWrites(cs: seq<Invocation>)
    ensures forall i :: 0 <= i < |Late(cs)| ==> "success" in Delta(Late(cs)[i].call)
  {
    if cs != [] {
      LateWrites(cs[1..]);
    }
  }

  lemma {:induction false} OverlayHas(d: Dict, cs: seq<Invocation>, k: string)
    requires k in d
    ensures k in Overlay(d, cs)
    decreases |cs|
  {
    if cs != [] {
      OverlayHas(d + Delta(cs[0].call), cs[1..], k);
    }
  }

  // ---------- Trees of spans ----------

  /** A span of the tree: which content dict it holds, its parent, and where in the log its BEGIN
      event is, if it is there. */
  datatype Node = Node(name: string, begun: bool, ended: bool, cell: nat, parent: Option<nat>, beginAt: Option<nat>)

  /** `cells` are the content dicts. Several spans may hold the same one. */
  datatype Forest = Forest(nodes: seq<Node>, cells: seq<Dict>, log: seq<Event>)

  /** The dict that the caller passes to a new span: a new one, or one that a span holds already. */
  datatype Given = NewDict(content: Dict) | Existing(cell: nat)

  datatype Action =
    | Open(name: string, given: Given)
    | On(i: nat, call: Invocation)
    | Stage(p: nat, stage: string, extra: Dict)
    | CallerWrites(cell: nat, d: Dict)   // the caller updates a dict that it has passed

  const NO_SPANS := Forest([], [], [])

  predicate IsSpan(f: Forest, i: nat) {
    i < |f.nodes| && f.nodes[i].cell < |f.cells|
  }

  predicate Enabled(f: Forest, a: Action) {
    match a
    case Open(_, given) => given.Existing? ==> given.cell < |f.cells|
    case On(i, _) => IsSpan(f, i)
    case Stage(p, _, _) => IsSpan(f, p)
    case CallerWrites(cell, _) => cell < |f.cells|
  }

  function SpanAt(f: Forest, i: nat): Span
    requires IsSpan(f, i)
  {
    var n := f.nodes[i];
    Span(i, n.name, f.cells[n.cell], n.begun, n.ended)
  }

  /** A new span with a dict of its own. */
  function NewSpan(f: Forest, name: string, content: Dict, parent: Option<nat>): Forest {
    f.(nodes := f.nodes + [Node(name, false, false, |f.cells|, parent, None)], cells := f.cells + [content])
  }

  function Next(f: Forest, a: Action): Forest
    requires Enabled(f, a)
  {
    match a
    case Open(name, NewDict(content)) => NewSpan(f, name, content, None)
    case Open(name, Existing(cell)) =>
      // `content or {}`: an empty dict is not adopted
      if f.cells[cell] == map[] then NewSpan(f, name, map[], None)
      else f.(nodes := f.nodes + [Node(name, false, false, cell, None, None)])
    case On(i, c) =>
      var n, sp := f.nodes[i], SpanAt(f, i);
      var out, next := Emits(sp, c), After(sp, c.call);
      var at := if out != [] && c.call.Begin? then Some(|f.log|) else n.beginAt;
      Forest(f.nodes[i := n.(begun := next.begun, ended := next.ended, beginAt := at)],
             f.cells[n.cell := next.content], f.log + out)
    case Stage(p, stage, extra) =>
      var parent := SpanAt(f, p);
      if parent.ended || !parent.begun then f   // a stub is returned instead of a span
      else NewSpan(f, parent.name + "#" + stage, parent.content + extra, Some(p))
    case CallerWrites(cell, d) => f.(cells := f.cells[cell := f.cells[cell] + d])
  }

  ghost predicate Step(f: Forest, a: Action, g: Forest) {
    Enabled(f, a) && g == Next(f, a)
  }

  /** The events of span `i`, and the calls made on it, in order. */
  function EventsOf(log: seq<Event>, i: nat): seq<Event> {
    if log == [] then []
    else EventsOf(log[..|log| - 1], i) + if log[|log| - 1].id == i then [log[|log| - 1]] else []
  }

  function CallOn(a: Action, i: nat): seq<Invocation> {
    if a.On? && a.i == i then [a.call] else []
  }

  function CallsOn(acts: seq<Action>, i: nat): seq<Invocation> {
    if acts == [] then []
    else CallsOn(acts[..|acts| - 1], i) + CallOn(acts[|acts| - 1], i)
  }

  lemma {:induction false} EventsOfSnoc(log: seq<Event>, out: seq<Event>, i: nat)
    requires |out| <= 1
    ensures EventsOf(log + out, i) == EventsOf(log, i) + if out != [] && out[0].id == i then out else []
  {
    if out == [] {
      assert log + out == log;
    } else {
      assert (log + out)[..|log|] == log;
    }
  }

  lemma {:induction false} AllSnoc(sp: Span, cs: seq<Invocation>, c: Invocation)
    ensures AfterAll(sp, cs + [c]) == After(AfterAll(sp, cs), c.call)
    ensures EmitsAll(sp, cs + [c]) == EmitsAll(sp, cs) + Emits(AfterAll(sp, cs), c)
    decreases |cs|
  {
    if cs == [] {
      assert [] + [c] == [c];
    } else {
      assert (cs + [c])[1..] == cs[1..] + [c];
      AllSnoc(After(sp, cs[0].call), cs[1..], c);
    }
  }

  lemma {:induction false} EmittedIds(sp: Span, c: Invocation)
    ensures |Emits(sp, c)| <= 1
    ensures forall j :: 0 <= j < |Emits(sp, c)| ==>
              Emits(sp, c)[j].id == sp.id && Emits(sp, c)[j].name == sp.name && (Emits(sp, c)[j].kind == BEGIN <==> c.call.Begin?)
  {
  }

  predicate IsBegin(f: Forest, k: nat, i: nat) {
    k < |f.log| && f.log[k].id == i && f.log[k].kind == BEGIN
  }

  ghost predicate NodeOk(f: Forest, i: nat)
    requires i < |f.nodes|
  {
    var n := f.nodes[i];
    && n.cell < |f.cells|
    && (n.ended ==> n.begun)
    && (n.beginAt.Some? ==> n.begun && n.beginAt.value < |f.log|)
    && (n.parent.Some? ==>
          && n.parent.value < i
          && var p := f.nodes[n.parent.value];
             && p.begun
             && p.name <= n.name
             && (n.beginAt.Some? && p.beginAt.Some? ==> p.beginAt.value < n.beginAt.value))
  }

  /** The positions of the BEGIN events are the recorded ones. */
  ghost predicate LogOk(f: Forest) {
    && (forall k :: 0 <= k < |f.log| ==> f.log[k].id < |f.nodes| && f.log[k].name == f.nodes[f.log[k].id].name)
    && (forall k :: 0 <= k < |f.log| && f.log[k].kind == BEGIN ==> f.nodes[f.log[k].id].beginAt == Some(k))
    && (forall i :: 0 <= i < |f.nodes| && f.nodes[i].beginAt.Some? ==> IsBegin(f, f.nodes[i].beginAt.value, i))
  }

  ghost predicate Inv(f: Forest) {
    (forall i :: 0 <= i < |f.nodes| ==> NodeOk(f, i)) && LogOk(f)
  }

  lemma {:induction false} NodesAfterCall(f: Forest, i: nat, c: Invocation, j: nat)
    requires Inv(f) && i < |f.nodes| && j < |f.nodes| && IsSpan(f, i)
    ensures NodeOk(Next(f, On(i, c)), j)
  {
    assert NodeOk(f, i) && NodeOk(f, j);
    EmittedIds(SpanAt(f, i), c);
    if f.nodes[j].parent.Some? {
      assert NodeOk(f, f.nodes[j].parent.value);
    }
  }

  lemma {:induction false} LogAfterCall(f: Forest, i: nat, c: Invocation)
    requires LogOk(f) && IsSpan(f, i) && NodeOk(f, i)
    ensures LogOk(Next(f, On(i, c)))
  {
    EmittedIds(SpanAt(f, i), c);
  }

  lemma {:induction false} InvOn(f: Forest, i: nat, c: Invocation)
    requires Inv(f) && IsSpan(f, i)
    ensures Inv(Next(f, On(i, c)))
  {
    var g := Next(f, On(i, c));
    assert NodeOk(f, i);
    LogAfterCall(f, i, c);
    forall j | 0 <= j < |g.nodes| ensures NodeOk(g, j) {
      NodesAfterCall(f, i, c, j);
    }
  }

  lemma {:induction false} InvNew(f: Forest, n: Node, more: seq<Dict>)
    requires Inv(f) && !n.begun && !n.ended && n.beginAt.None? && n.cell < |f.cells + more|
    requires n.parent.Some? ==> n.parent.value < |f.nodes| && f.nodes[n.parent.value].begun && f.nodes[n.parent.value].name <= n.name
    ensures Inv(f.(nodes := f.nodes + [n], cells := f.cells + more))
  {
    var g := f.(nodes := f.nodes + [n], cells := f.cells + more);
    forall j | 0 <= j < |g.nodes| ensures NodeOk(g, j) {
      if j < |f.nodes| {
        assert NodeOk(f, j);
      }
    }
  }

  lemma {:induction false} InvStep(f: Forest, a: Action)
    requires Inv(f) && Enabled(f, a)
    ensures Inv(Next(f, a))
  {
    match a {
      case Open(name, given) =>
        if given.NewDict? {
          InvNew(f, Node(name, false, false, |f.cells|, None, None), [given.content]);
        } else if f.cells[given.cell] == map[] {
          InvNew(f, Node(name, false, false, |f.cells|, None, None), [map[]]);
        } else {
          assert f.cells + [] == f.cells;
          InvNew(f, Node(name, false, false, given.cell, None, None), []);
        }
      case On(i, c) => InvOn(f, i, c);
      case Stage(p, stage, extra) =>
        var n := f.nodes[p];
        if n.begun && !n.ended {
          assert n.name <= n.name + "#" + stage;
          InvNew(f, Node(n.name + "#" + stage, false, false, |f.cells|, Some(p), None), [f.cells[n.cell] + extra]);
        }
      case CallerWrites(cell, d) =>
        var g := Next(f, a);
        forall j | 0 <= j < |g.nodes| ensures NodeOk(g, j) {
          assert NodeOk(f, j);
        }
    }
  }

  lemma {:induction false} InvRun(tr: seq<Forest>, acts: seq<Action>, n: nat)
    requires Run(Step, tr, acts) && tr[0] == NO_SPANS && n < |tr|
    ensures Inv(tr[n])
  {
    forall f, a, g | Inv(f) && Step(f, a, g) ensures Inv(g) {
      InvStep(f, a);
    }
    Invariant(Step, Inv, tr, acts, n);
  }

  /** In every reachable tree a sub-span has a parent that has begun and whose name its own name
      extends, every event carries the id and the name of its span, and the BEGIN of a sub-span
      comes after the BEGIN of its parent, unless the exporter refused the latter. */
  lemma {:induction false} ChildBeginsAfterParent(tr: seq<Forest>, acts: seq<Action>, n: nat, c: nat, k: nat)
    requires Run(Step, tr, acts) && tr[0] == NO_SPANS && n < |tr|
    requires c < |tr[n].nodes| && tr[n].nodes[c].parent.Some? && IsBegin(tr[n], k, c)
    ensures var p := tr[n].nodes[c].parent.value;
            && p < c && tr[n].nodes[p].begun && tr[n].nodes[p].name <= tr[n].nodes[c].name
            && tr[n].log[k].name == tr[n].nodes[c].name
            && forall j: nat :: IsBegin(tr[n], j, p) ==> j < k
  {
    InvRun(tr, acts, n);
    assert NodeOk(tr[n], c);
  }

  // ---------- What a content dict holds ----------

  /** What a step writes into content dict `cell`. */
  function Written(f: Forest, a: Action, cell: nat): Dict {
    if a.On? && a.i < |f.nodes| && f.nodes[a.i].cell == cell && !(a.call.call.Extra? && f.nodes[a.i].ended)
    then Delta(a.call.call)
    else if a.CallerWrites? && a.cell == cell then a.d
    else map[]
  }

  function Writes(tr: seq<Forest>, acts: seq<Action>, cell: nat, k: nat, n: nat): seq<Dict>
    requires k <= n <= |acts| && n <= |tr|
  {
    seq(n - k, j requires 0 <= j < n - k => Written(tr[k + j], acts[k + j], cell))
  }

  function LaidOver(d: Dict, ds: seq<Dict>): Dict {
    if ds == [] then d else LaidOver(d, ds[..|ds| - 1]) + ds[|ds| - 1]
  }

  lemma {:induction false} CellStep(f: Forest, a: Action, cell: nat)
    requires Enabled(f, a) && cell < |f.cells|
    ensures cell < |Next(f, a).cells| && Next(f, a).cells[cell] == f.cells[cell] + Written(f, a, cell)
  {
    assert f.cells[cell] + map[] == f.cells[cell];
  }

  /** A content dict holds what it held earlier, overlaid with everything that the calls on all the
      spans that hold it, and its caller, have written since, in order. This is also what an END event,
      which holds the dict itself, shows to a reader that looks later. */
  lemma {:induction false} CellContent(tr: seq<Forest>, acts: seq<Action>, cell: nat, k: nat, n: nat)
    requires Run(Step, tr, acts) && k <= n < |tr| && cell < |tr[k].cells|
    ensures cell < |tr[n].cells| && tr[n].cells[cell] == LaidOver(tr[k].cells[cell], Writes(tr, acts, cell, k, n))
  {
    hide Next, Enabled, Written, Writes, LaidOver;
    if k < n {
      CellContent(tr, acts, cell, k, n - 1);
      assert Step(tr[n - 1], acts[n - 1], tr[n]);
      CellStep(tr[n - 1], acts[n - 1], cell);
      WritesSnoc(tr, acts, cell, k, n);
      LaidOverSnoc(tr[k].cells[cell], Writes(tr, acts, cell, k, n - 1), Written(tr[n - 1], acts[n - 1], cell));
    } else {
      NoWrites(tr, acts, cell, k);
    }
  }

  lemma {:induction false} NoWrites(tr: seq<Forest>, acts: seq<Action>, cell: nat, k: nat)
    requires k <= |acts| && k < |tr| && cell < |tr[k].cells|
    ensures LaidOver(tr[k].cells[cell], Writes(tr, acts, cell, k, k)) == tr[k].cells[cell]
  {
  }

  lemma {:induction false} WritesSnoc(tr: seq<Forest>, acts: seq<Action>, cell: nat, k: nat, n: nat)
    requires k < n <= |acts| && n <= |tr|
    ensures Writes(tr, acts, cell, k, n) == Writes(tr, acts, cell, k, n - 1) + [Written(tr[n - 1], acts[n - 1], cell)]
  {
  }

  lemma {:induction false} LaidOverSnoc(d: Dict, ds: seq<Dict>, x: Dict)
    ensures LaidOver(d, ds + [x]) == LaidOver(d, ds) + x
  {
    assert (ds + [x])[..|ds|] == ds;
  }

  // ---------- Where a span comes from ----------

  /** A span keeps its name, its parent and its dict. */
  lemma {:induction false} SpanStays(tr: seq<Forest>, acts: seq<Action>, k: nat, n: nat, i: nat)
    requires Run(Step, tr, acts) && k <= n < |tr| && i < |tr[k].nodes|
    ensures i < |tr[n].nodes| && tr[n].nodes[i].name == tr[k].nodes[i].name
    ensures tr[n].nodes[i].cell == tr[k].nodes[i].cell && tr[n].nodes[i].parent == tr[k].nodes[i].parent
  {
    if k < n {
      SpanStays(tr, acts, k, n - 1, i);
      assert Step(tr[n - 1], acts[n - 1], tr[n]);
    }
  }

  /** stage() makes a sub-span if and only if its parent has begun and not ended. The sub-span is named
      after both, and its dict is its own: a copy of the parent's as it is at that moment, overlaid with
      the given content, and from then on with what is written into it. The parent's stays as it is. */
  lemma {:induction false} StageCopies(tr: seq<Forest>, acts: seq<Action>, k: nat, n: nat)
    requires Run(Step, tr, acts) && tr[0] == NO_SPANS && k < n < |tr| && acts[k].Stage?
    ensures var Stage(p, stage, extra) := acts[k];
            var f, g, i, cell := tr[k], tr[n], |tr[k].nodes|, |tr[k].cells|;
            && IsSpan(f, p) && tr[k + 1].log == f.log && f.cells <= tr[k + 1].cells
            && if f.nodes[p].begun && !f.nodes[p].ended
               then && IsSpan(g, i) && g.nodes[i].name == f.nodes[p].name + "#" + stage
                    && g.nodes[i].parent == Some(p) && g.nodes[i].cell == cell
                    && (forall j :: 0 <= j < i ==> g.nodes[j].cell != cell)
                    && g.cells[cell] == LaidOver(f.cells[f.nodes[p].cell] + extra, Writes(tr, acts, cell, k + 1, n))
               else tr[k + 1] == f
  {
    InvRun(tr, acts, k);
    assert Step(tr[k], acts[k], tr[k + 1]);
    var f, p := tr[k], acts[k].p;
    if f.nodes[p].begun && !f.nodes[p].ended {
      var i, cell := |f.nodes|, |f.cells|;
      assert tr[k + 1].nodes[i] == Node(f.nodes[p].name + "#" + acts[k].stage, false, false, cell, Some(p), None);
      assert tr[k + 1].cells[cell] == f.cells[f.nodes[p].cell] + acts[k].extra;
      hide Next, Enabled, LaidOver, Writes;
      CellContent(tr, acts, cell, k + 1, n);
      SpanStays(tr, acts, k + 1, n, i);
      forall j | 0 <= j < i ensures j < |tr[n].nodes| && tr[n].nodes[j].cell != cell {
        assert NodeOk(f, j);
        SpanStays(tr, acts, k, n, j);
      }
    }
  }

  /** A span that a caller opens has no parent. It holds the dict that it was given, unless that is
      empty: then it holds a new one. */
  lemma {:induction false} OpenAdopts(tr: seq<Forest>, acts: seq<Action>, k: nat, n: nat)
    requires Run(Step, tr, acts) && tr[0] == NO_SPANS && k < n < |tr| && acts[k].Open?
    ensures var Open(name, given) := acts[k];
            var f, g, i := tr[k], tr[n], |tr[k].nodes|;
            && IsSpan(g, i) && g.nodes[i].name == name && g.nodes[i].parent.None?
            && var cell := g.nodes[i].cell;
               if given.Existing? && given.cell < |f.cells| && f.cells[given.cell] != map[]
               then cell == given.cell && tr[k + 1].cells == f.cells
               else && cell == |f.cells| && (forall j :: 0 <= j < i ==> g.nodes[j].cell != cell)
                    && g.cells[cell] == LaidOver(if given.NewDict? then given.content else map[], Writes(tr, acts, cell, k + 1, n))
  {
    InvRun(tr, acts, k);
    assert Step(tr[k], acts[k], tr[k + 1]);
    var f, i := tr[k], |tr[k].nodes|;
    var cell := tr[k + 1].nodes[i].cell;
    hide Enabled, LaidOver, Writes;
    CellContent(tr, acts, cell, k + 1, n);
    SpanStays(tr, acts, k + 1, n, i);
    forall j | 0 <= j < i ensures j < |tr[n].nodes| && tr[n].nodes[j].cell < |f.cells| {
      assert NodeOk(f, j);
      SpanStays(tr, acts, k, n, j);
    }
  }

  // ---------- The events of a span in a tree ----------

  predicate IsBeginOf(a: Action, i: nat) {
    a.On? && a.i == i && a.call.call.Begin?
  }

  predicate IsEndOf(a: Action, i: nat) {
    a.On? && a.i == i && IsTerminal(a.call.call)
  }

  /** The first step from `lo` on, before `hi`, that begins span `i`; `hi` if there is none. */
  function BeginStep(acts: seq<Action>, i: nat, lo: nat, hi: nat): (m: nat)
    requires lo <= hi <= |acts|
    ensures lo <= m <= hi
    ensures m < hi ==> IsBeginOf(acts[m], i)
    ensures forall j :: lo <= j < m ==> !IsBeginOf(acts[j], i)
    decreases hi - lo
  {
    if lo == hi || IsBeginOf(acts[lo], i) then lo else BeginStep(acts, i, lo + 1, hi)
  }

  /** The first terminal call on span `i`, likewise. */
  function TerminalStep(acts: seq<Action>, i: nat, lo: nat, hi: nat): (m: nat)
    requires lo <= hi <= |acts|
    ensures lo <= m <= hi
    ensures m < hi ==> IsEndOf(acts[m], i)
    ensures forall j :: lo <= j < m ==> !IsEndOf(acts[j], i)
    decreases hi - lo
  {
    if lo == hi || IsEndOf(acts[lo], i) then lo else TerminalStep(acts, i, lo + 1, hi)
  }

  function EndStep(acts: seq<Action>, i: nat, lo: nat, hi: nat): nat
    requires lo <= hi <= |acts|
  {
    var b := BeginStep(acts, i, lo, hi);
    if b == hi then hi else TerminalStep(acts, i, b + 1, hi)
  }

  /** The event that step `m` of the run puts into the log for the span `node`, if `m` is before `n`
      and the exporter accepts it: BEGIN with a copy of the content dict as it was, END with the dict
      as the call leaves it. */
  function LoggedAt(tr: seq<Forest>, acts: seq<Action>, i: nat, node: Node, m: nat, n: nat, kind: Kind): seq<Event>
    requires n <= |acts| && |tr| == |acts| + 1
  {
    if m >= n || !acts[m].On? || !acts[m].call.ok || node.cell >= |tr[m].cells| || node.cell >= |tr[m + 1].cells| then []
    else [Event(i, node.name, kind, if kind == BEGIN then tr[m].cells[node.cell] else tr[m + 1].cells[node.cell])]
  }

  lemma {:induction false} BeginStepSnoc(acts: seq<Action>, i: nat, lo: nat, n: nat)
    requires lo < n <= |acts|
    ensures var before := BeginStep(acts, i, lo, n - 1);
            BeginStep(acts, i, lo, n) == if before < n - 1 then before else if IsBeginOf(acts[n - 1], i) then n - 1 else n
  {
    var before, m := BeginStep(acts, i, lo, n - 1), BeginStep(acts, i, lo, n);
    assert before < n - 1 ==> IsBeginOf(acts[before], i);
    assert m < n ==> IsBeginOf(acts[m], i);
  }

  lemma {:induction false} TerminalStepSnoc(acts: seq<Action>, i: nat, lo: nat, n: nat)
    requires lo < n <= |acts|
    ensures var before := TerminalStep(acts, i, lo, n - 1);
            TerminalStep(acts, i, lo, n) == if before < n - 1 then before else if IsEndOf(acts[n - 1], i) then n - 1 else n
  {
    var before, m := TerminalStep(acts, i, lo, n - 1), TerminalStep(acts, i, lo, n);
    assert before < n - 1 ==> IsEndOf(acts[before], i);
    assert m < n ==> IsEndOf(acts[m], i);
  }

  lemma {:induction false} EndStepSnoc(acts: seq<Action>, i: nat, lo: nat, n: nat)
    requires lo < n <= |acts|
    ensures var b, e := BeginStep(acts, i, lo, n - 1), EndStep(acts, i, lo, n - 1);
            e <= n - 1 && EndStep(acts, i, lo, n) ==
              if e < n - 1 then e else if b < n - 1 && IsEndOf(acts[n - 1], i) then n - 1 else n
  {
    BeginStepSnoc(acts, i, lo, n);
    var b := BeginStep(acts, i, lo, n - 1);
    if b < n - 1 {
      TerminalStepSnoc(acts, i, b + 1, n);
    }
  }

  /** What a step does to span `i` and its part of the log. */
  lemma {:induction false} StepOfSpan(f: Forest, a: Action, i: nat)
    requires Inv(f) && Enabled(f, a) && IsSpan(f, i)
    ensures var g := Next(f, a);
            && IsSpan(g, i) && g.nodes[i].name == f.nodes[i].name && g.nodes[i].cell == f.nodes[i].cell
            && (!(a.On? && a.i == i) ==> g.nodes[i] == f.nodes[i] && EventsOf(g.log, i) == EventsOf(f.log, i))
            && (a.On? && a.i == i ==>
                  && SpanAt(g, i) == After(SpanAt(f, i), a.call.call)
                  && EventsOf(g.log, i) == EventsOf(f.log, i) + Emits(SpanAt(f, i), a.call))
  {
    if a.On? {
      EmittedIds(SpanAt(f, a.i), a.call);
      EventsOfSnoc(f.log, Emits(SpanAt(f, a.i), a.call), i);
    }
  }

  lemma {:induction false} NoEventsYet(log: seq<Event>, i: nat)
    requires forall k :: 0 <= k < |log| ==> log[k].id < i
    ensures EventsOf(log, i) == []
  {
    if log != [] {
      NoEventsYet(log[..|log| - 1], i);
    }
  }

  lemma {:induction false} SpanAppears(f: Forest, a: Action)
    requires Inv(f) && Enabled(f, a) && |f.nodes| < |Next(f, a).nodes|
    ensures var g := Next(f, a);
            && IsSpan(g, |f.nodes|) && !g.nodes[|f.nodes|].begun && !g.nodes[|f.nodes|].ended
            && EventsOf(g.log, |f.nodes|) == []
  {
    NoEventsYet(f.log, |f.nodes|);
  }

  /** The part of SpanEventsInTree that one more step of the run adds. */
  lemma {:induction false} EventsOfStep(tr: seq<Forest>, acts: seq<Action>, lo: nat, n: nat, i: nat, node: Node)
    requires |tr| == |acts| + 1 && lo < n <= |acts| && Inv(tr[n - 1]) && Step(tr[n - 1], acts[n - 1], tr[n])
    requires IsSpan(tr[n - 1], i) && tr[n - 1].nodes[i].name == node.name && tr[n - 1].nodes[i].cell == node.cell
    requires tr[n - 1].nodes[i].begun <==> BeginStep(acts, i, lo, n - 1) < n - 1
    requires tr[n - 1].nodes[i].ended <==> EndStep(acts, i, lo, n - 1) < n - 1
    ensures tr[n].nodes[i].begun <==> BeginStep(acts, i, lo, n) < n
    ensures tr[n].nodes[i].ended <==> EndStep(acts, i, lo, n) < n
    ensures EventsOf(tr[n].log, i) == EventsOf(tr[n - 1].log, i)
              + (if BeginStep(acts, i, lo, n) == n - 1 then LoggedAt(tr, acts, i, node, n - 1, n, BEGIN) else [])
              + (if EndStep(acts, i, lo, n) == n - 1 then LoggedAt(tr, acts, i, node, n - 1, n, END) else [])
  {
    BeginStepSnoc(acts, i, lo, n);
    EndStepSnoc(acts, i, lo, n);
    StepOfSpan(tr[n - 1], acts[n - 1], i);
    hide Next, Inv, BeginStep, EndStep, EventsOf, Enabled;
    if acts[n - 1].On? && acts[n - 1].i == i {
      LoggedCall(tr, acts, i, node, n);
      hide Emits, LoggedAt;
    }
  }

  /** What a call on the span emits is what is logged for it. */
  lemma {:induction false} LoggedCall(tr: seq<Forest>, acts: seq<Action>, i: nat, node: Node, n: nat)
    requires |tr| == |acts| + 1 && 0 < n <= |acts| && acts[n - 1].On? && IsSpan(tr[n - 1], i)
    requires tr[n - 1].nodes[i].name == node.name && tr[n - 1].nodes[i].cell == node.cell < |tr[n].cells|
    requires tr[n].cells[node.cell] == After(SpanAt(tr[n - 1], i), acts[n - 1].call.call).content
    ensures var sp, c := SpanAt(tr[n - 1], i), acts[n - 1].call.call;
            Emits(sp, acts[n - 1].call) ==
              (if !sp.begun && c.Begin? then LoggedAt(tr, acts, i, node, n - 1, n, BEGIN) else []) +
              (if sp.begun && !sp.ended && IsTerminal(c) then LoggedAt(tr, acts, i, node, n - 1, n, END) else [])
  {
  }

  /** The events of any span of any tree, whatever dicts the spans share: BEGIN at the first begin()
      on the span, then END at the first terminal call on it after that, and nothing else. Their
      contents are what the content dict holds at those moments, which CellContent describes. */
  lemma {:induction false} SpanEventsInTree(tr: seq<Forest>, acts: seq<Action>, k: nat, n: nat, i: nat)
    requires Run(Step, tr, acts) && tr[0] == NO_SPANS && k < n < |tr|
    requires |tr[k].nodes| == i < |tr[k + 1].nodes|
    ensures IsSpan(tr[n], i) && tr[n].nodes[i].name == tr[k + 1].nodes[i].name && tr[n].nodes[i].cell == tr[k + 1].nodes[i].cell
    ensures var node, b, e := tr[k + 1].nodes[i], BeginStep(acts, i, k + 1, n), EndStep(acts, i, k + 1, n);
            && (tr[n].nodes[i].begun <==> b < n) && (tr[n].nodes[i].ended <==> e < n)
            && EventsOf(tr[n].log, i) == LoggedAt(tr, acts, i, node, b, n, BEGIN) + LoggedAt(tr, acts, i, node, e, n, END)
  {
    hide Next, Inv, EventsOf, BeginStep, EndStep, LoggedAt, Enabled;
    InvRun(tr, acts, n - 1);
    assert Step(tr[n - 1], acts[n - 1], tr[n]);
    if n == k + 1 {
      SpanAppears(tr[k], acts[k]);
      NoStepsYet(tr, acts, n, i, tr[n].nodes[i]);
    } else {
      SpanEventsInTree(tr, acts, k, n - 1, i);
      var node, lo := tr[k + 1].nodes[i], k + 1;
      StepOfSpan(tr[n - 1], acts[n - 1], i);
      EventsOfStep(tr, acts, lo, n, i, node);
      LoggedBefore(tr, acts, i, node, lo, n);
    }
  }

  lemma {:induction false} NoStepsYet(tr: seq<Forest>, acts: seq<Action>, n: nat, i: nat, node: Node)
    requires n <= |acts| && |tr| == |acts| + 1
    ensures BeginStep(acts, i, n, n) == n && EndStep(acts, i, n, n) == n
    ensures LoggedAt(tr, acts, i, node, n, n, BEGIN) + LoggedAt(tr, acts, i, node, n, n, END) == []
  {
  }

  /** What was logged before the last step stays where it is. */
  lemma {:induction false} LoggedBefore(tr: seq<Forest>, acts: seq<Action>, i: nat, node: Node, lo: nat, n: nat)
    requires lo < n <= |acts| && |tr| == |acts| + 1
    ensures var b', e' := BeginStep(acts, i, lo, n - 1), EndStep(acts, i, lo, n - 1);
            var b, e := BeginStep(acts, i, lo, n), EndStep(acts, i, lo, n);
            LoggedAt(tr, acts, i, node, b', n - 1, BEGIN) + LoggedAt(tr, acts, i, node, e', n - 1, END)
              + (if b == n - 1 then LoggedAt(tr, acts, i, node, n - 1, n, BEGIN) else [])
              + (if e == n - 1 then LoggedAt(tr, acts, i, node, n - 1, n, END) else [])
            == LoggedAt(tr, acts, i, node, b, n, BEGIN) + LoggedAt(tr, acts, i, node, e, n, END)
  {
    BeginStepSnoc(acts, i, lo, n);
    EndStepSnoc(acts, i, lo, n);
    EndAfterBegin(acts, i, lo, n);
  }

  lemma {:induction false} EndAfterBegin(acts: seq<Action>, i: nat, lo: nat, n: nat)
    requires lo <= n <= |acts|
    ensures EndStep(acts, i, lo, n) < n ==> BeginStep(acts, i, lo, n) < EndStep(acts, i, lo, n)
  {
  }

  // ---------- Spans with a dict of their own ----------

  /** Neither another span nor the caller writes into the dict of span `i`. */
  predicate LeftAlone(f: Forest, a: Action, i: nat) {
    i < |f.nodes| ==>
      && !(a.On? && a.i != i && a.i < |f.nodes| && f.nodes[a.i].cell == f.nodes[i].cell)
      && !(a.CallerWrites? && a.cell == f.nodes[i].cell)
  }

  lemma {:induction false} StepLeftAlone(f: Forest, a: Action, i: nat, sp: Span, cs: seq<Invocation>)
    requires Inv(f) && Enabled(f, a) && IsSpan(f, i) && LeftAlone(f, a, i)
    requires SpanAt(f, i) == AfterAll(sp, cs) && EventsOf(f.log, i) == EmitsAll(sp, cs)
    ensures var g := Next(f, a);
            && IsSpan(g, i)
            && SpanAt(g, i) == AfterAll(sp, cs + CallOn(a, i))
            && EventsOf(g.log, i) == EmitsAll(sp, cs + CallOn(a, i))
  {
    assert cs + [] == cs;
    StepOfSpan(f, a, i);
    CellStep(f, a, f.nodes[i].cell);
    if a.On? {
      AllSnoc(sp, cs, a.call);
    }
  }

  /** The state of a span whose dict is left alone, and its events in the shared log, depend on its
      creation (step `k`) and on the calls made on it alone. */
  lemma {:induction false} SpanIsIndependent(tr: seq<Forest>, acts: seq<Action>, k: nat, n: nat, i: nat)
    requires Run(Step, tr, acts) && tr[0] == NO_SPANS && k < n < |tr|
    requires |tr[k].nodes| == i < |tr[k + 1].nodes| && IsSpan(tr[k + 1], i)
    requires forall m :: k < m < n ==> LeftAlone(tr[m], acts[m], i)
    ensures IsSpan(tr[n], i)
    ensures SpanAt(tr[n], i) == AfterAll(SpanAt(tr[k + 1], i), CallsOn(acts[k + 1..n], i))
    ensures EventsOf(tr[n].log, i) == EmitsAll(SpanAt(tr[k + 1], i), CallsOn(acts[k + 1..n], i))
  {
    hide Inv, Next, Enabled, Emits, After, EventsOf, AfterAll, EmitsAll, SpanAt, IsSpan, LeftAlone, CallsOn, CallOn;
    InvRun(tr, acts, n - 1);
    assert Step(tr[n - 1], acts[n - 1], tr[n]);
    if n == k + 1 {
      assert acts[k + 1..n] == [];
      SpanAppears(tr[k], acts[k]);
      NoCallsYet(SpanAt(tr[n], i), i);
    } else {
      SpanIsIndependent(tr, acts, k, n - 1, i);
      var before, a := acts[k + 1..n - 1], acts[n - 1];
      assert acts[k + 1..n] == before + [a];
      CallsOnSnoc(before, a, i);
      StepLeftAlone(tr[n - 1], a, i, SpanAt(tr[k + 1], i), CallsOn(before, i));
    }
  }

  lemma {:induction false} NoCallsYet(sp: Span, i: nat)
    ensures AfterAll(sp, CallsOn([], i)) == sp && EmitsAll(sp, CallsOn([], i)) == []
  {
  }

  lemma {:induction false} CallsOnSnoc(before: seq<Action>, a: Action, i: nat)
    ensures CallsOn(before + [a], i) == CallsOn(before, i) + CallOn(a, i)
  {
    assert (before + [a])[..|before|] == before;
  }

  /** So its events are BEGIN and END as SpanEvents describes them. */
  lemma {:induction false} OwnDictEvents(tr: seq<Forest>, acts: seq<Action>, k: nat, n: nat, i: nat)
    requires Run(Step, tr, acts) && tr[0] == NO_SPANS && k < n < |tr|
    requires |tr[k].nodes| == i < |tr[k + 1].nodes| && IsSpan(tr[k + 1], i)
    requires forall m :: k < m < n ==> LeftAlone(tr[m], acts[m], i)
    ensures var sp, cs := SpanAt(tr[k + 1], i), CallsOn(acts[k + 1..n], i);
            var b, e := FirstBegin(cs), FirstEnd(cs);
            EventsOf(tr[n].log, i) == EventAt(sp, cs, b, BEGIN, b) + EventAt(sp, cs, e, END, e + 1)
  {
    hide Inv, CallsOn, EventsOf, EmitsAll, FirstBegin, FirstEnd, EventAt, LeftAlone;
    InvRun(tr, acts, k);
    assert Step(tr[k], acts[k], tr[k + 1]);
    SpanAppears(tr[k], acts[k]);
    hide Next;
    SpanIsIndependent(tr, acts, k, n, i);
    SpanEvents(SpanAt(tr[k + 1], i), CallsOn(acts[k + 1..n], i));
  }

  /** Being left alone is needed: in every state in which two spans hold the same dict and neither has
      ended, what is written through one shows in the END event of the other. */
  lemma {:induction false} SharedDictLeaks(f: Forest, i: nat, j: nat, d: Dict) returns (g: Forest)
    requires Inv(f) && i < |f.nodes| && j < |f.nodes| && i != j && f.nodes[i].cell == f.nodes[j].cell
    requires f.nodes[i].begun && !f.nodes[i].ended && !f.nodes[j].ended
    ensures Reaches(Step, f, [On(j, Invocation(Extra(d), true))] + [On(i, Invocation(End, true))], g)
    ensures NodeOk(f, i) && g.log == f.log + [Event(i, f.nodes[i].name, END, f.cells[f.nodes[i].cell] + d)]
  {
    assert NodeOk(f, i) && NodeOk(f, j);
    var a1, a2 := On(j, Invocation(Extra(d), true)), On(i, Invocation(End, true));
    var h := Next(f, a1);
    assert h.nodes[i] == f.nodes[i] && h.cells[f.nodes[i].cell] == f.cells[f.nodes[i].cell] + d && h.log == f.log;
    g := Next(h, a2);
    assert h.cells[h.nodes[i].cell] + map[] == h.cells[h.nodes[i].cell];
    Start(Step, f);
    Extend(Step, f, [], f, a1, h);
    assert [] + [a1] == [a1];
    Extend(Step, f, [a1], h, a2, g);
  }

  /** Two calls that pass the same non-empty dict make two such spans. */
  lemma {:induction false} SamePassedDict(name: string, other: string, content: Dict) returns (g: Forest)
    requires content != map[]
    ensures Reaches(Step, NO_SPANS, [Open(name, NewDict(content))] + [Open(other, Existing(0))] + [On(0, Invocation(Begin, true))], g)
    ensures |g.nodes| == 2 && g.nodes[0].cell == g.nodes[1].cell && g.cells == [content]
    ensures g.nodes[0].begun && !g.nodes[0].ended && !g.nodes[1].ended
  {
    var a1, a2, a3 := Open(name, NewDict(content)), Open(other, Existing(0)), On(0, Invocation(Begin, true));
    var f1 := Next(NO_SPANS, a1);
    assert f1.cells == [content];
    var f2 := Next(f1, a2);
    g := Next(f2, a3);
    assert content + map[] == content;
    Start(Step, NO_SPANS);
    Extend(Step, NO_SPANS, [], NO_SPANS, a1, f1);
    assert [] + [a1] == [a1];
    Extend(Step, NO_SPANS, [a1], f1, a2, f2);
    Extend(Step, NO_SPANS, [a1] + [a2], f2, a3, g);
  }

  /** They form a prefix of [BEGIN, END] unless the exporter refuses the BEGIN and accepts the END. */
  lemma {:induction false} EndWithoutBegin(sp: Span, cs: seq<Invocation>)
    requires !sp.begun && !sp.ended
    ensures var events := EmitsAll(sp, cs);
            && |events| <= 2
            && (|events| == 2 ==> events[0].kind == BEGIN && events[1].kind == END)
            && (|events| == 1 && events[0].kind == END
                <==> FirstEnd(cs) < |cs| && cs[FirstEnd(cs)].ok && !cs[FirstBegin(cs)].ok)
  {
    hide EmitsAll, FirstBegin, FirstTerminal, Overlay;
    SpanEvents(sp, cs);
  }
}
