/**
 Disable windows on audit specifications.

 SQL Server refuses every change to an enabled specification, so each write
 switches it off, runs, and switches it back on; a caller can open one window
 around several writes. The window travels in the context as the key of the
 specification it switched off.
 */
module SpecificationWindow {
  import opened SwitchPairs
  import opened Text
  import opened Wrappers

  /** A server specification, or one of a database. */
  datatype Scope = ServerScope(name: string) | DatabaseScope(database: string, name: string)

  /** The key a window is recognised by. */
  function WindowKey(s: Scope): string {
    match s
    case ServerScope(name) => name
    case DatabaseScope(database, name) => database + "." + name
  }

  /** The key in a context that carries none. */
  const NO_WINDOW := ""

  /** A statement that reached the server; Write says whether the specification
      was enabled when it did. */
  datatype Event = SwitchedOff(spec: Scope) | SwitchedOn(spec: Scope) | Write(spec: Scope, wasEnabled: bool)

  datatype World = World(enabled: map<Scope, bool>, log: seq<Event>) {
    predicate IsOn(s: Scope) { s in enabled && enabled[s] }
  }

  /**
   What a caller does. Every step carries its own fate: whether the read of the
   enabled state succeeds, whether the switch-off does, whether the statement
   does. A cancelled context is every later fate false; only the restores do
   not depend on it.
   */
  datatype Program =
    | Alter(spec: Scope, readOk: bool, offOk: bool, writeOk: bool)
    | Window(spec: Scope, readOk: bool, offOk: bool, body: Program)
    | Then(first: Program, second: Program)
    | Attempt(body: Program)
    | Return(ok: bool)

  function Scopes(p: Program): set<Scope> {
    match p
    case Alter(s, _, _, _) => {s}
    case Window(s, _, _, body) => {s} + Scopes(body)
    case Then(first, second) => Scopes(first) + Scopes(second)
    case Attempt(body) => Scopes(body)
    case Return(_) => {}
  }

  // ---- the server ----

  function SwitchOff(w: World, s: Scope): World
    requires s in w.enabled
  {
    World(w.enabled[s := false], w.log + [SwitchedOff(s)])
  }

  function SwitchOn(w: World, s: Scope): World
    requires s in w.enabled
  {
    World(w.enabled[s := true], w.log + [SwitchedOn(s)])
  }

  /** A write: refused while the specification is enabled or missing. */
  function Issue(w: World, s: Scope, writeOk: bool): (World, bool) {
    (w.(log := w.log + [Write(s, w.IsOn(s))]), writeOk && s in w.enabled && !w.IsOn(s))
  }

  // ---- the window ----

  /** How a write or a window begins. */
  datatype Entry = Nested | Failed | AlreadyOff | Opened

  function Enter(w: World, context: string, s: Scope, readOk: bool, offOk: bool): Entry {
    if context == WindowKey(s) then Nested
    else if !readOk || s !in w.enabled then Failed
    else if !w.enabled[s] then AlreadyOff
    else if !offOk then Failed
    else Opened
  }

  /** Runs p under a context; the second result is whether it returned no error. */
  function Run(p: Program, context: string, w: World): (r: (World, bool))
    ensures r.0.enabled.Keys == w.enabled.Keys
  {
    match p
    case Alter(s, readOk, offOk, writeOk) => (
      match Enter(w, context, s, readOk, offOk)
      case Failed => (w, false)
      case Opened =>
        var (done, ok) := Issue(SwitchOff(w, s), s, writeOk);
        (SwitchOn(done, s), ok)
      case _ => Issue(w, s, writeOk)
    )
    case Window(s, readOk, offOk, body) => (
      match Enter(w, context, s, readOk, offOk)
      case Nested => Run(body, context, w)
      case Failed => (w, false)
      case AlreadyOff => Run(body, WindowKey(s), w)
      case Opened =>
        var (done, ok) := Run(body, WindowKey(s), SwitchOff(w, s));
        (SwitchOn(done, s), ok)
    )
    case Then(first, second) =>
      var (mid, ok) := Run(first, context, w);
      if ok then Run(second, context, mid) else (mid, false)
    case Attempt(body) => (Run(body, context, w).0, true)
    case Return(ok) => (w, ok)
  }

  // ---- what windows promise ----

  /** Every write of the log from `from` on met a disabled specification. */
  ghost predicate WritesWhileOff(log: seq<Event>, from: nat) {
    forall i :: from <= i < |log| && log[i].Write? ==> !log[i].wasEnabled
  }

  /** A run that broke nothing. */
  ghost predicate Safe(w: World, after: World) {
    && after.enabled == w.enabled
    && |w.log| <= |after.log| && after.log[..|w.log|] == w.log
    && WritesWhileOff(after.log, |w.log|)
  }

  /** No two of the specifications share a window key, and none has the key of no
      window. */
  ghost predicate KeysApart(specs: set<Scope>) {
    && (forall s :: s in specs ==> WindowKey(s) != NO_WINDOW)
    && (forall s, t :: s in specs && t in specs && WindowKey(s) == WindowKey(t) ==> s == t)
  }

  /** Whatever the context says is switched off is. */
  ghost predicate ContextHolds(specs: set<Scope>, context: string, w: World) {
    forall s :: s in specs && WindowKey(s) == context ==> !w.IsOn(s)
  }

  lemma SafeChain(a: World, b: World, c: World)
    requires Safe(a, b) && Safe(b, c)
    ensures Safe(a, c)
  {
    assert c.log[..|a.log|] == c.log[..|b.log|][..|a.log|];
    forall i | |a.log| <= i < |c.log| && c.log[i].Write? ensures !c.log[i].wasEnabled {
      if i < |b.log| { assert c.log[i] == c.log[..|b.log|][i]; }
    }
  }

  /** A body run between the switches leaves things as they were. */
  lemma SafeBetween(w: World, s: Scope, done: World)
    requires w.IsOn(s) && Safe(SwitchOff(w, s), done)
    ensures Safe(w, SwitchOn(done, s))
  {
    var off := SwitchOff(w, s);
    var end := SwitchOn(done, s);
    assert end.enabled == w.enabled;
    assert end.log[..|w.log|] == w.log by {
      assert end.log[..|off.log|] == off.log;
      assert off.log[..|w.log|] == w.log;
      assert end.log[..|w.log|] == end.log[..|off.log|][..|w.log|];
    }
    assert end.log[|w.log|] == end.log[..|off.log|][|w.log|] == SwitchedOff(s);
  }

  /** Nested windows and writes over any specifications, with any step failing
      anywhere: every specification ends as it began, and every write is issued
      while its specification is off. */
  lemma {:induction false} RunIsSafe(p: Program, specs: set<Scope>, context: string, w: World)
    requires KeysApart(specs) && Scopes(p) <= specs && ContextHolds(specs, context, w)
    ensures Safe(w, Run(p, context, w).0)
  {
    match p
    case Alter(s, readOk, offOk, writeOk) =>
      if Enter(w, context, s, readOk, offOk) == Opened {
        SafeBetween(w, s, Issue(SwitchOff(w, s), s, writeOk).0);
      }
    case Window(s, readOk, offOk, body) =>
      match Enter(w, context, s, readOk, offOk) {
        case Nested => RunIsSafe(body, specs, context, w);
        case Failed =>
        case AlreadyOff => RunIsSafe(body, specs, WindowKey(s), w);
        case Opened =>
          RunIsSafe(body, specs, WindowKey(s), SwitchOff(w, s));
          SafeBetween(w, s, Run(body, WindowKey(s), SwitchOff(w, s)).0);
      }
    case Then(first, second) =>
      RunIsSafe(first, specs, context, w);
      var (mid, ok) := Run(first, context, w);
      if ok {
        RunIsSafe(second, specs, context, mid);
        SafeChain(w, mid, Run(second, context, mid).0);
      }
    case Attempt(body) => RunIsSafe(body, specs, context, w);
    case Return(_) =>
  }

  /** The window promise for a set of specifications, over every program on them
      and every starting state. */
  ghost predicate WindowsWork(specs: set<Scope>) {
    forall p: Program, w: World :: Scopes(p) <= specs ==> Safe(w, Run(p, NO_WINDOW, w).0)
  }

  /** Windows work on a set of specifications exactly when their keys are apart. */
  lemma WindowsWorkIffKeysApart(specs: set<Scope>)
    ensures WindowsWork(specs) <==> KeysApart(specs)
  {
    if KeysApart(specs) {
      forall p: Program, w: World | Scopes(p) <= specs ensures Safe(w, Run(p, NO_WINDOW, w).0) {
        RunIsSafe(p, specs, NO_WINDOW, w);
      }
    }
    forall s | s in specs && WindowKey(s) == NO_WINDOW ensures !WindowsWork(specs) {
      KeylessWriteBreaks(s);
      assert Scopes(Alter(s, true, true, true)) <= specs;
    }
    forall s, t | s in specs && t in specs && WindowKey(s) == WindowKey(t) && s != t
      ensures !WindowsWork(specs)
    {
      SharedKeyBreaks(s, t);
      assert Scopes(Window(s, true, true, Alter(t, true, true, true))) <= specs;
    }
  }

  /** A specification with the empty key looks switched off to begin with. */
  lemma KeylessWriteBreaks(s: Scope)
    requires WindowKey(s) == NO_WINDOW
    ensures var w := World(map[s := true], []);
            !Safe(w, Run(Alter(s, true, true, true), NO_WINDOW, w).0)
  {
    var w := World(map[s := true], []);
    assert Run(Alter(s, true, true, true), NO_WINDOW, w).0.log[0] == Write(s, true);
  }

  /** A window on one of two specifications sharing a key lets a write on the
      other through while it is enabled. */
  lemma SharedKeyBreaks(s: Scope, t: Scope)
    requires s != t && WindowKey(s) == WindowKey(t)
    ensures var w := World(map[s := true, t := true], []);
            !Safe(w, Run(Window(s, true, true, Alter(t, true, true, true)), NO_WINDOW, w).0)
  {
    var w := World(map[s := true, t := true], []);
    var write := Alter(t, true, true, true);
    var p := Window(s, true, true, write);
    assert Run(write, WindowKey(s), w) == Issue(w, t, true);
    assert WindowKey(s) != NO_WINDOW;
    var off := SwitchOff(w, s);
    var done := Run(write, WindowKey(s), off).0;
    assert done == Issue(off, t, true).0;
    assert done.log == [SwitchedOff(s), Write(t, true)];
    assert Run(p, NO_WINDOW, w).0 == SwitchOn(done, s);
    assert SwitchOn(done, s).log[1] == Write(t, true);
  }

  /** Two specifications a server can hold do share a key: the dot that joins a
      database to a name may stand in either. */
  lemma DottedNamesCollide()
    ensures !WindowsWork({ServerScope("Sales.Spec"), DatabaseScope("Sales", "Spec")})
    ensures !WindowsWork({DatabaseScope("a.b", "c"), DatabaseScope("a", "b.c")})
  {
    var a, b := ServerScope("Sales.Spec"), DatabaseScope("Sales", "Spec");
    var c, d := DatabaseScope("a.b", "c"), DatabaseScope("a", "b.c");
    assert WindowKey(a) == WindowKey(b) && WindowKey(c) == WindowKey(d);
    WindowsWorkIffKeysApart({a, b});
    WindowsWorkIffKeysApart({c, d});
  }

  /** Names without a dot, none of them empty, keep the keys apart. */
  ghost predicate PlainNames(specs: set<Scope>) {
    forall s :: s in specs ==>
      && s.name != "" && '.' !in s.name
      && (s.DatabaseScope? ==> '.' !in s.database)
  }

  lemma PlainNamesSuffice(specs: set<Scope>)
    requires PlainNames(specs)
    ensures WindowsWork(specs)
  {
    forall s, t | s in specs && t in specs && WindowKey(s) == WindowKey(t) ensures s == t {
      KeySplits(s);
      KeySplits(t);
      if s.DatabaseScope? && t.DatabaseScope? {
        CutsOnce(s.database, t.database, s.name, t.name, '.');
      }
    }
    WindowsWorkIffKeysApart(specs);
  }

  lemma KeySplits(s: Scope)
    requires '.' !in s.name
    ensures s.ServerScope? <==> '.' !in WindowKey(s)
  {
    if s.DatabaseScope? { assert WindowKey(s)[|s.database|] == '.'; }
  }

  // ---- how often auditing stops ----

  /** The switches of one specification, in order: false is off. */
  function Toggles(log: seq<Event>, s: Scope): seq<bool> {
    if log == [] then []
    else
      var rest, last := Toggles(log[..|log| - 1], s), log[|log| - 1];
      if last == SwitchedOff(s) then rest + [false]
      else if last == SwitchedOn(s) then rest + [true]
      else rest
  }

  lemma TogglesSnoc(log: seq<Event>, e: Event, s: Scope)
    ensures Toggles(log + [e], s) ==
      Toggles(log, s) + if e == SwitchedOff(s) then [false] else if e == SwitchedOn(s) then [true] else []
  {
    assert (log + [e])[..|log|] == log;
  }

  /** A specification that is off is not switched at all: inside its own window,
      however the window is shadowed, auditing does not stop a second time. */
  lemma {:induction false} OffStaysUntouched(p: Program, specs: set<Scope>, context: string, w: World, s: Scope)
    requires KeysApart(specs) && Scopes(p) <= specs && ContextHolds(specs, context, w) && !w.IsOn(s)
    ensures Toggles(Run(p, context, w).0.log, s) == Toggles(w.log, s)
  {
    match p
    case Alter(t, readOk, offOk, writeOk) =>
      TogglesOfAlter(t, readOk, offOk, writeOk, context, w, s);
    case Window(t, readOk, offOk, body) =>
      match Enter(w, context, t, readOk, offOk) {
        case Nested => OffStaysUntouched(body, specs, context, w, s);
        case Failed =>
        case AlreadyOff => OffStaysUntouched(body, specs, WindowKey(t), w, s);
        case Opened =>
          OffStaysUntouched(body, specs, WindowKey(t), SwitchOff(w, t), s);
          TogglesSnoc(w.log, SwitchedOff(t), s);
          TogglesSnoc(Run(body, WindowKey(t), SwitchOff(w, t)).0.log, SwitchedOn(t), s);
      }
    case Then(first, second) =>
      RunIsSafe(first, specs, context, w);
      OffStaysUntouched(first, specs, context, w, s);
      var (mid, ok) := Run(first, context, w);
      if ok { OffStaysUntouched(second, specs, context, mid, s); }
    case Attempt(body) => OffStaysUntouched(body, specs, context, w, s);
    case Return(_) =>
  }

  lemma TogglesOfPair(log: seq<Event>, t: Scope, on: bool, s: Scope)
    ensures Toggles(log + [SwitchedOff(t)] + [Write(t, on)] + [SwitchedOn(t)], s) ==
            Toggles(log, s) + if s == t then [false, true] else []
  {
    TogglesSnoc(log, SwitchedOff(t), s);
    TogglesSnoc(log + [SwitchedOff(t)], Write(t, on), s);
    TogglesSnoc(log + [SwitchedOff(t)] + [Write(t, on)], SwitchedOn(t), s);
  }

  lemma TogglesOfAlter(t: Scope, readOk: bool, offOk: bool, writeOk: bool, context: string, w: World, s: Scope)
    ensures var after := Run(Alter(t, readOk, offOk, writeOk), context, w).0;
            Toggles(after.log, s) ==
              Toggles(w.log, s) + if Enter(w, context, t, readOk, offOk) == Opened && s == t then [false, true] else []
  {
    TogglesSnoc(w.log, Write(t, w.IsOn(t)), s);
    if Enter(w, context, t, readOk, offOk) == Opened { TogglesOfPair(w.log, t, SwitchOff(w, t).IsOn(t), s); }
  }

  lemma {:induction false} PairAround(s: Scope, body: Program, specs: set<Scope>, w: World)
    requires KeysApart(specs) && s in specs && Scopes(body) <= specs && w.IsOn(s)
    ensures var off := SwitchOff(w, s);
            Toggles(SwitchOn(Run(body, WindowKey(s), off).0, s).log, s) == Toggles(w.log, s) + [false, true]
  {
    var off := SwitchOff(w, s);
    OffStaysUntouched(body, specs, WindowKey(s), off, s);
    TogglesSnoc(w.log, SwitchedOff(s), s);
    TogglesSnoc(Run(body, WindowKey(s), off).0.log, SwitchedOn(s), s);
  }

  /** A window that opens switches its specification off once and on once,
      whatever its body holds and however that fails. */
  lemma {:induction false} OneWindowOnePair(s: Scope, body: Program, specs: set<Scope>, context: string, w: World)
    requires KeysApart(specs) && s in specs && Scopes(body) <= specs
    requires Enter(w, context, s, true, true) == Opened
    ensures Toggles(Run(Window(s, true, true, body), context, w).0.log, s) == Toggles(w.log, s) + [false, true]
  {
    PairAround(s, body, specs, w);
  }

  // ---- the switches of a whole program ----

  /** The outermost windows on a specification, and its writes outside them. */
  function Outer(p: Program, s: Scope): nat {
    match p
    case Alter(t, _, _, _) => One(t == s)
    case Window(t, _, _, body) => if t == s then 1 else Outer(body, s)
    case Then(first, second) => Outer(first, s) + Outer(second, s)
    case Attempt(body) => Outer(body, s)
    case Return(_) => 0
  }

  /** Those of them that are reached and find the specification enabled. */
  function Opens(p: Program, context: string, w: World, s: Scope): nat {
    match p
    case Alter(t, readOk, offOk, _) => One(t == s && Enter(w, context, t, readOk, offOk) == Opened)
    case Window(t, readOk, offOk, body) => (
      match Enter(w, context, t, readOk, offOk)
      case Nested => Opens(body, context, w, s)
      case Failed => 0
      case AlreadyOff => Opens(body, WindowKey(t), w, s)
      case Opened => if t == s then 1 else Opens(body, WindowKey(t), SwitchOff(w, t), s)
    )
    case Then(first, second) =>
      var (mid, ok) := Run(first, context, w);
      Opens(first, context, w, s) + if ok then Opens(second, context, mid, s) else 0
    case Attempt(body) => Opens(body, context, w, s)
    case Return(_) => 0
  }

  /** Between two logs the specification was switched off and on k times. */
  ghost predicate Grew(before: seq<Event>, after: seq<Event>, s: Scope, k: nat) {
    Toggles(after, s) == ThenPairs(Toggles(before, s), k)
  }

  lemma {:induction false} PairsChain(before: seq<Event>, mid: seq<Event>, after: seq<Event>, s: Scope, j: nat, k: nat)
    requires Grew(before, mid, s, j) && Grew(mid, after, s, k)
    ensures Grew(before, after, s, j + k)
  {
    PairsAdd(Toggles(before, s), j, k);
  }

  /** What a program's switches of a specification come to. */
  ghost predicate Paired(p: Program, context: string, w: World, s: Scope) {
    Grew(w.log, Run(p, context, w).0.log, s, Opens(p, context, w, s))
  }

  /** A window on another specification adds nothing to this one's switches. */
  lemma {:induction false} OtherWindowIsPaired(t: Scope, body: Program, w: World, s: Scope)
    requires t in w.enabled && s != t && Paired(body, WindowKey(t), SwitchOff(w, t), s)
    ensures var off := SwitchOff(w, t);
            var done := Run(body, WindowKey(t), off).0;
            Grew(w.log, SwitchOn(done, t).log, s, Opens(body, WindowKey(t), off, s))
  {
    TogglesSnoc(w.log, SwitchedOff(t), s);
    TogglesSnoc(Run(body, WindowKey(t), SwitchOff(w, t)).0.log, SwitchedOn(t), s);
  }

  /** What a sequence runs, and what opens in it. */
  lemma {:induction false} ThenRuns(first: Program, second: Program, context: string, w: World, s: Scope)
    ensures var (mid, ok) := Run(first, context, w);
            var end, j := Run(Then(first, second), context, w).0, Opens(first, context, w, s);
            if ok then
              && end == Run(second, context, mid).0
              && Opens(Then(first, second), context, w, s) == j + Opens(second, context, mid, s)
            else end == mid && Opens(Then(first, second), context, w, s) == j
  {
  }

  lemma {:induction false} ThenIsPaired(first: Program, second: Program, context: string, w: World, s: Scope)
    requires Paired(first, context, w, s)
    requires var (mid, ok) := Run(first, context, w); ok ==> Paired(second, context, mid, s)
    ensures Paired(Then(first, second), context, w, s)
  {
    ThenRuns(first, second, context, w, s);
    var (mid, ok) := Run(first, context, w);
    if ok {
      var end, j, k := Run(second, context, mid).0, Opens(first, context, w, s), Opens(second, context, mid, s);
      PairsChain(w.log, mid.log, end.log, s, j, k);
    }
  }

  /** Whatever a program does to whichever specifications, failing anywhere: one
      is switched off once and on once for each of its outermost windows and
      separate writes that opened, and not otherwise. */
  lemma {:induction false} SwitchesArePaired(p: Program, specs: set<Scope>, context: string, w: World, s: Scope)
    requires KeysApart(specs) && Scopes(p) <= specs && ContextHolds(specs, context, w)
    ensures Paired(p, context, w, s)
  {
    FewPairs(Toggles(w.log, s));
    match p
    case Alter(t, readOk, offOk, writeOk) => TogglesOfAlter(t, readOk, offOk, writeOk, context, w, s);
    case Window(t, readOk, offOk, body) =>
      match Enter(w, context, t, readOk, offOk) {
        case Nested => SwitchesArePaired(body, specs, context, w, s);
        case Failed =>
        case AlreadyOff => SwitchesArePaired(body, specs, WindowKey(t), w, s);
        case Opened =>
          if t == s {
            PairAround(s, body, specs, w);
          } else {
            SwitchesArePaired(body, specs, WindowKey(t), SwitchOff(w, t), s);
            OtherWindowIsPaired(t, body, w, s);
          }
      }
    case Then(first, second) =>
      RunIsSafe(first, specs, context, w);
      SwitchesArePaired(first, specs, context, w, s);
      var (mid, ok) := Run(first, context, w);
      if ok { SwitchesArePaired(second, specs, context, mid, s); }
      ThenIsPaired(first, second, context, w, s);
    case Attempt(body) => SwitchesArePaired(body, specs, context, w, s);
    case Return(_) =>
  }

  /** A specification that is off opens nothing. */
  lemma {:induction false} OffOpensNone(p: Program, specs: set<Scope>, context: string, w: World, s: Scope)
    requires KeysApart(specs) && Scopes(p) <= specs && ContextHolds(specs, context, w) && !w.IsOn(s)
    ensures Opens(p, context, w, s) == 0
  {
    OffStaysUntouched(p, specs, context, w, s);
    SwitchesArePaired(p, specs, context, w, s);
  }

  /** No window opens twice: at most once for each outermost window or separate
      write. */
  lemma {:induction false} OpensAreOuter(p: Program, specs: set<Scope>, context: string, w: World, s: Scope)
    requires KeysApart(specs) && Scopes(p) <= specs && ContextHolds(specs, context, w)
    ensures Opens(p, context, w, s) <= Outer(p, s)
  {
    match p
    case Window(t, readOk, offOk, body) =>
      match Enter(w, context, t, readOk, offOk) {
        case Nested =>
          if t == s { OffOpensNone(body, specs, context, w, s); } else { OpensAreOuter(body, specs, context, w, s); }
        case Failed =>
        case AlreadyOff =>
          if t == s {
            OffOpensNone(body, specs, WindowKey(t), w, s);
          } else {
            OpensAreOuter(body, specs, WindowKey(t), w, s);
          }
        case Opened =>
          if t != s { OpensAreOuter(body, specs, WindowKey(t), SwitchOff(w, t), s); }
      }
    case Then(first, second) =>
      RunIsSafe(first, specs, context, w);
      OpensAreOuter(first, specs, context, w, s);
      var (mid, ok) := Run(first, context, w);
      if ok { OpensAreOuter(second, specs, context, mid, s); }
    case Attempt(body) => OpensAreOuter(body, specs, context, w, s);
    case _ =>
  }

  /** No step's failure is passed over. */
  predicate Straight(p: Program) {
    match p
    case Window(_, _, _, body) => Straight(body)
    case Then(first, second) => Straight(first) && Straight(second)
    case Attempt(_) => false
    case _ => true
  }

  /** A program that returned no error opened each of them. */
  lemma {:induction false} AllOpen(p: Program, specs: set<Scope>, context: string, w: World, s: Scope)
    requires KeysApart(specs) && Scopes(p) <= specs && ContextHolds(specs, context, w) && w.IsOn(s)
    requires Straight(p) && Run(p, context, w).1
    ensures Opens(p, context, w, s) == Outer(p, s)
  {
    match p
    case Alter(_, _, _, _) =>
    case Window(t, readOk, offOk, body) =>
      match Enter(w, context, t, readOk, offOk) {
        case Nested => AllOpen(body, specs, context, w, s);
        case Failed =>
        case AlreadyOff => AllOpen(body, specs, WindowKey(t), w, s);
        case Opened =>
          if t != s { AllOpen(body, specs, WindowKey(t), SwitchOff(w, t), s); }
      }
    case Then(first, second) =>
      RunIsSafe(first, specs, context, w);
      AllOpen(first, specs, context, w, s);
      AllOpen(second, specs, context, Run(first, context, w).0, s);
    case Return(_) =>
  }

  /** Any program on specifications with keys of their own, failing anywhere:
      each is switched off once and on once for each of its outermost windows
      and separate writes that opened. One that began off is not switched; for
      one that began on, if nothing failed, none is missing. */
  lemma {:induction false} ProgramSwitches(p: Program, specs: set<Scope>, w: World, s: Scope)
    requires KeysApart(specs) && Scopes(p) <= specs
    ensures var k := Opens(p, NO_WINDOW, w, s);
            && Grew(w.log, Run(p, NO_WINDOW, w).0.log, s, k)
            && k <= Outer(p, s) && (!w.IsOn(s) ==> k == 0)
            && (w.IsOn(s) && Straight(p) && Run(p, NO_WINDOW, w).1 ==> k == Outer(p, s))
  {
    SwitchesArePaired(p, specs, NO_WINDOW, w, s);
    OpensAreOuter(p, specs, NO_WINDOW, w, s);
    if !w.IsOn(s) {
      OffOpensNone(p, specs, NO_WINDOW, w, s);
    } else if Straight(p) && Run(p, NO_WINDOW, w).1 {
      AllOpen(p, specs, NO_WINDOW, w, s);
    }
  }

  // ---- what a program sends, and what it returns ----

  /** A separate write that opens: its log to the last event, and its fate. */
  lemma AlterLog(s: Scope, readOk: bool, offOk: bool, writeOk: bool, context: string, w: World)
    requires Enter(w, context, s, readOk, offOk) == Opened
    ensures Run(Alter(s, readOk, offOk, writeOk), context, w) ==
            (w.(log := w.log + [SwitchedOff(s), Write(s, false), SwitchedOn(s)]), writeOk)
  {
    assert w.log + [SwitchedOff(s)] + [Write(s, false)] + [SwitchedOn(s)]
        == w.log + [SwitchedOff(s), Write(s, false), SwitchedOn(s)];
    assert w.enabled[s := false][s := true] == w.enabled;
  }

  /** What the fates of steps run against: the specifications there are, and those
      enabled. */
  datatype Known = Known(all: set<Scope>, on: set<Scope>)

  function KnownOf(w: World): Known {
    Known(w.enabled.Keys, (set s | s in w.enabled && w.enabled[s]))
  }

  /** The function a window runs is reached: in the specification's own window, or
      once the state is read and, if it is on, switched off. */
  predicate Reached(s: Scope, readOk: bool, offOk: bool, context: string, k: Known) {
    context == WindowKey(s) || (readOk && s in k.all && (s in k.on ==> offOk))
  }

  function Inside(s: Scope, k: Known): Known {
    k.(on := k.on - {s})
  }

  /** The error a program returns, from its steps' fates alone. */
  predicate Succeeds(p: Program, context: string, k: Known) {
    match p
    case Alter(s, readOk, offOk, writeOk) => Reached(s, readOk, offOk, context, k) && s in k.all && writeOk
    case Window(s, readOk, offOk, body) =>
      Reached(s, readOk, offOk, context, k) && Succeeds(body, WindowKey(s), Inside(s, k))
    case Then(first, second) => Succeeds(first, context, k) && Succeeds(second, context, k)
    case Attempt(_) => true
    case Return(ok) => ok
  }

  /** How many of its writes on a specification are sent. */
  function Sent(p: Program, context: string, k: Known, s: Scope): nat {
    match p
    case Alter(t, readOk, offOk, _) => One(t == s && Reached(t, readOk, offOk, context, k))
    case Window(t, readOk, offOk, body) =>
      if Reached(t, readOk, offOk, context, k) then Sent(body, WindowKey(t), Inside(t, k), s) else 0
    case Then(first, second) =>
      Sent(first, context, k, s) + if Succeeds(first, context, k) then Sent(second, context, k, s) else 0
    case Attempt(body) => Sent(body, context, k, s)
    case Return(_) => 0
  }

  function WriteCount(log: seq<Event>, s: Scope): nat {
    if log == [] then 0
    else
      var last := log[|log| - 1];
      WriteCount(log[..|log| - 1], s) + One(last.Write? && last.spec == s)
  }

  lemma WritesSnoc(log: seq<Event>, e: Event, s: Scope)
    ensures WriteCount(log + [e], s) == WriteCount(log, s) + One(e.Write? && e.spec == s)
  {
    assert (log + [e])[..|log|] == log;
  }

  /** Between two logs k writes were sent. */
  ghost predicate Wrote(before: seq<Event>, after: seq<Event>, s: Scope, k: nat) {
    WriteCount(after, s) == WriteCount(before, s) + k
  }

  /** A window's two switches are no writes. */
  lemma SwitchesAreNoWrites(w: World, t: Scope, done: World, s: Scope, k: nat)
    requires t in w.enabled && t in done.enabled && Wrote(SwitchOff(w, t).log, done.log, s, k)
    ensures Wrote(w.log, SwitchOn(done, t).log, s, k)
  {
    WritesSnoc(w.log, SwitchedOff(t), s);
    WritesSnoc(done.log, SwitchedOn(t), s);
  }

  /** What the program's run is to what its fates say. */
  ghost predicate RunsAsTold(p: Program, context: string, w: World, s: Scope) {
    var (end, ok) := Run(p, context, w);
    && (ok <==> Succeeds(p, context, KnownOf(w)))
    && Wrote(w.log, end.log, s, Sent(p, context, KnownOf(w), s))
  }

  lemma {:induction false} AlterRunsAsTold(t: Scope, readOk: bool, offOk: bool, writeOk: bool,
                                           context: string, w: World, s: Scope)
    requires context == WindowKey(t) ==> !w.IsOn(t)
    ensures RunsAsTold(Alter(t, readOk, offOk, writeOk), context, w, s)
  {
    match Enter(w, context, t, readOk, offOk) {
      case Failed =>
      case Opened =>
        var off := SwitchOff(w, t);
        WritesSnoc(off.log, Write(t, false), s);
        SwitchesAreNoWrites(w, t, Issue(off, t, writeOk).0, s, One(t == s));
      case _ => WritesSnoc(w.log, Write(t, w.IsOn(t)), s);
    }
  }

  lemma {:induction false} WindowRunsAsTold(t: Scope, body: Program, w: World, s: Scope)
    requires t in w.enabled && RunsAsTold(body, WindowKey(t), SwitchOff(w, t), s)
    ensures KnownOf(SwitchOff(w, t)) == Inside(t, KnownOf(w))
    ensures var (done, ok) := Run(body, WindowKey(t), SwitchOff(w, t));
            && (ok <==> Succeeds(body, WindowKey(t), Inside(t, KnownOf(w))))
            && Wrote(w.log, SwitchOn(done, t).log, s, Sent(body, WindowKey(t), Inside(t, KnownOf(w)), s))
  {
    var off := SwitchOff(w, t);
    assert KnownOf(off).all == KnownOf(w).all && KnownOf(off).on == KnownOf(w).on - {t};
    SwitchesAreNoWrites(w, t, Run(body, WindowKey(t), off).0, s,
                        Sent(body, WindowKey(t), Inside(t, KnownOf(w)), s));
  }

  /** Any program on specifications with keys of their own: it returns no error
      exactly when its steps' fates say so, and sends exactly the writes they let
      it reach. */
  lemma {:induction false} FatesDecide(p: Program, specs: set<Scope>, context: string, w: World, s: Scope)
    requires KeysApart(specs) && Scopes(p) <= specs && ContextHolds(specs, context, w)
    ensures RunsAsTold(p, context, w, s)
  {
    match p
    case Alter(t, readOk, offOk, writeOk) => AlterRunsAsTold(t, readOk, offOk, writeOk, context, w, s);
    case Window(t, readOk, offOk, body) =>
      match Enter(w, context, t, readOk, offOk) {
        case Failed =>
        case Opened =>
          FatesDecide(body, specs, WindowKey(t), SwitchOff(w, t), s);
          WindowRunsAsTold(t, body, w, s);
        case _ =>
          FatesDecide(body, specs, WindowKey(t), w, s);
          assert Inside(t, KnownOf(w)).on == KnownOf(w).on;
      }
    case Then(first, second) =>
      RunIsSafe(first, specs, context, w);
      FatesDecide(first, specs, context, w, s);
      var (mid, ok) := Run(first, context, w);
      if ok { FatesDecide(second, specs, context, mid, s); }
    case Attempt(body) => FatesDecide(body, specs, context, w, s);
    case Return(_) =>
  }

  /** The writes of a program, as it is written down. */
  function Writes(p: Program, s: Scope): nat {
    match p
    case Alter(t, _, _, _) => One(t == s)
    case Window(_, _, _, body) => Writes(body, s)
    case Then(first, second) => Writes(first, s) + Writes(second, s)
    case Attempt(body) => Writes(body, s)
    case Return(_) => 0
  }

  /** Every write's statement went through, and every state was read that had to
      be. */
  predicate AllWentWell(p: Program, context: string) {
    match p
    case Alter(s, readOk, _, writeOk) => (readOk || context == WindowKey(s)) && writeOk
    case Window(s, readOk, _, body) => (readOk || context == WindowKey(s)) && AllWentWell(body, WindowKey(s))
    case Then(first, second) => AllWentWell(first, context) && AllWentWell(second, context)
    case Attempt(body) => AllWentWell(body, context)
    case Return(ok) => ok
  }

  lemma {:induction false} StraightSendsAll(p: Program, context: string, k: Known, s: Scope)
    requires Straight(p) && Succeeds(p, context, k)
    ensures Sent(p, context, k, s) == Writes(p, s) && AllWentWell(p, context)
  {
    match p
    case Alter(_, _, _, _) =>
    case Window(t, _, _, body) => StraightSendsAll(body, WindowKey(t), Inside(t, k), s);
    case Then(first, second) =>
      StraightSendsAll(first, context, k, s);
      StraightSendsAll(second, context, k, s);
    case Return(_) =>
  }

  /** A program that passes over no error and returned none has sent every write
      there is in it, and none of them failed. */
  lemma NoErrorMeansSent(p: Program, specs: set<Scope>, w: World, s: Scope)
    requires KeysApart(specs) && Scopes(p) <= specs
    requires Straight(p) && Run(p, NO_WINDOW, w).1
    ensures Wrote(w.log, Run(p, NO_WINDOW, w).0.log, s, Writes(p, s)) && AllWentWell(p, NO_WINDOW)
  {
    FatesDecide(p, specs, NO_WINDOW, w, s);
    StraightSendsAll(p, NO_WINDOW, KnownOf(w), s);
  }

  // ---- the live server ----

  /** The server and the write mechanics both kinds of specification share. */
  class SpecificationServer {
    var enabled: map<Scope, bool>
    var log: seq<Event>

    function State(): World
      reads this
    {
      World(enabled, log)
    }

    constructor (enabled: map<Scope, bool>)
      ensures State() == World(enabled, [])
    {
      this.enabled := enabled;
      log := [];
    }

    /** The catalog read; a specification that is not there is an error. */
    method IsEnabled(s: Scope, readOk: bool) returns (r: Option<bool>)
      ensures r == if readOk && s in enabled then Some(enabled[s]) else None
    {
      r := if readOk && s in enabled then Some(enabled[s]) else None;
    }

    method SetEnabled(s: Scope, on: bool, applied: bool) returns (ok: bool)
      requires s in enabled
      modifies this
      ensures ok == applied
      ensures State() ==
        if !applied then old(State()) else if on then SwitchOn(old(State()), s) else SwitchOff(old(State()), s)
    {
      if applied {
        enabled := enabled[s := on];
        log := log + [if on then SwitchedOn(s) else SwitchedOff(s)];
      }
      ok := applied;
    }

    method Exec(s: Scope, writeOk: bool) returns (ok: bool)
      modifies this
      ensures (State(), ok) == Issue(old(State()), s, writeOk)
    {
      var on := s in enabled && enabled[s];
      log := log + [Write(s, on)];
      ok := writeOk && s in enabled && !on;
    }

    /** Runs the work with the specification disabled, restoring it only if this
        call disabled it. */
    method WithDisabled(s: Scope, work: Work, readOk: bool, offOk: bool, context: string) returns (ok: bool)
      modifies this
      ensures (State(), ok) == Run(Enclosed(s, work, readOk, offOk), context, old(State()))
      decreases Size(Enclosed(s, work, readOk, offOk)), 1
    {
      if context == WindowKey(s) {
        ok := Do(s, work, context);
        return;
      }
      var read := IsEnabled(s, readOk);
      if read.None? { return false; }
      if !read.value {
        ok := Do(s, work, WindowKey(s));
        return;
      }
      var switched := SetEnabled(s, false, offOk);
      if !switched { return false; }
      ok := Do(s, work, WindowKey(s));
      var restored := SetEnabled(s, true, true);
    }

    method Do(s: Scope, work: Work, context: string) returns (ok: bool)
      modifies this
      ensures enabled.Keys == old(enabled.Keys)
      ensures (State(), ok) ==
        match work
        case Statement(writeOk) => Issue(old(State()), s, writeOk)
        case Caller(body) => Run(body, context, old(State()))
      decreases Size(Enclosed(s, work, true, true)), 0
    {
      match work
      case Statement(writeOk) => ok := Exec(s, writeOk);
      case Caller(body) => ok := Execute(body, context);
    }

    /** What a caller does with the context it was handed. */
    method Execute(p: Program, context: string) returns (ok: bool)
      modifies this
      ensures (State(), ok) == Run(p, context, old(State()))
      decreases Size(p), 2
    {
      match p
      case Alter(s, readOk, offOk, writeOk) => ok := WithDisabled(s, Statement(writeOk), readOk, offOk, context);
      case Window(s, readOk, offOk, body) => ok := WithDisabled(s, Caller(body), readOk, offOk, context);
      case Then(first, second) =>
        ok := Execute(first, context);
        if ok { ok := Execute(second, context); }
      case Attempt(body) =>
        ok := Execute(body, context);
        ok := true;
      case Return(r) => ok := r;
    }
  }

  /** The function a window runs: one write's statement, or a caller's. */
  datatype Work = Statement(writeOk: bool) | Caller(body: Program)

  /** The program step that runs a piece of work in a window. */
  function Enclosed(s: Scope, work: Work, readOk: bool, offOk: bool): Program {
    match work
    case Statement(writeOk) => Alter(s, readOk, offOk, writeOk)
    case Caller(body) => Window(s, readOk, offOk, body)
  }

  function Size(p: Program): nat {
    match p
    case Alter(_, _, _, _) => 1
    case Window(_, _, _, body) => 1 + Size(body)
    case Then(first, second) => 1 + Size(first) + Size(second)
    case Attempt(body) => 1 + Size(body)
    case Return(_) => 1
  }
}
