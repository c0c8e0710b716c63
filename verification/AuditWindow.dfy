/**
 Disable windows on server audits, which can be renamed while one is open.

 A window holds the name it will re-enable under; a rename rewrites it if the
 context's innermost window is that audit's. Each audit is reached through one
 handle, whose name is the client's view of it.
 */
module AuditWindow {
  import opened SwitchPairs
  import opened Text
  import opened Wrappers

  type Handle = nat

  datatype Event =
    | Switched(audit: Handle, on: bool)
    | Changed(audit: Handle, wasEnabled: bool)

  /** The audits on the server, by name, and the name each handle holds. */
  datatype World = World(audits: map<string, bool>, names: map<Handle, string>, log: seq<Event>) {
    predicate IsOn(name: string) { name in audits && audits[name] }

    /** The audit a handle reaches is on. */
    predicate Enabled(a: Handle)
      requires a in names
    {
      IsOn(names[a])
    }
  }

  /**
   What a caller does, every step with its own fate: whether the read of the
   enabled state succeeds, whether the switch-off does, whether each statement
   does. A cancelled context is every later fate false.
   */
  datatype Program =
    | Alter(audit: Handle, readOk: bool, offOk: bool, statements: seq<bool>)
    | Rename(audit: Handle, newName: string, readOk: bool, offOk: bool, renameOk: bool)
    | Window(audit: Handle, readOk: bool, offOk: bool, body: Program)
    | Then(first: Program, second: Program)
    | Attempt(body: Program)
    | Return(ok: bool)

  function Handles(p: Program): set<Handle> {
    match p
    case Alter(a, _, _, _) => {a}
    case Rename(a, _, _, _, _) => {a}
    case Window(a, _, _, body) => {a} + Handles(body)
    case Then(first, second) => Handles(first) + Handles(second)
    case Attempt(body) => Handles(body)
    case Return(_) => {}
  }

  // ---- the server ----

  /** STATE = ON or OFF, addressed by name; no audit of that name is an error. */
  function SetState(w: World, a: Handle, name: string, on: bool): (World, bool) {
    if name in w.audits then
      (World(w.audits[name := on], w.names, w.log + [Switched(a, on)]), true)
    else (w, false)
  }

  /** ALTER, refused while the audit is enabled or missing. */
  function AlterOne(w: World, a: Handle, ok: bool): (World, bool)
    requires a in w.names
  {
    var on := w.Enabled(a);
    (w.(log := w.log + [Changed(a, on)]), ok && w.names[a] in w.audits && !on)
  }

  /** ALTER's statements, up to the first that fails. */
  function AlterAll(w: World, a: Handle, statements: seq<bool>): (r: (World, bool))
    requires a in w.names
    ensures r.0.names == w.names && r.0.audits == w.audits
    decreases |statements|
  {
    if statements == [] then (w, true)
    else
      var (next, ok) := AlterOne(w, a, statements[0]);
      if ok then AlterAll(next, a, statements[1..]) else (next, false)
  }

  /** MODIFY NAME, refused while the audit is enabled or missing, and for a name
      another audit has. */
  function ModifyName(w: World, a: Handle, newName: string, ok: bool): (World, bool)
    requires a in w.names
  {
    var was, on := w.names[a], w.Enabled(a);
    var logged := w.log + [Changed(a, on)];
    if ok && was in w.audits && !on && (newName !in w.audits || newName == was) then
      (World((w.audits - {was})[newName := w.audits[was]], w.names[a := newName], logged), true)
    else (w.(log := logged), false)
  }

  // ---- the window ----

  datatype Entry = Nested | Failed | AlreadyOff | Opened

  /** The window's name is what the context carries; it is this audit's window if
      it holds the name the handle does. */
  function Enter(w: World, window: Option<string>, a: Handle, readOk: bool, offOk: bool): Entry
    requires a in w.names
  {
    if window == Some(w.names[a]) then Nested
    else if !readOk || w.names[a] !in w.audits then Failed
    else if !w.Enabled(a) then AlreadyOff
    else if !offOk then Failed
    else Opened
  }

  /** What a step leaves: the world, the name the innermost window now holds, and
      whether it returned no error. */
  datatype Outcome = Outcome(world: World, window: Option<string>, ok: bool)

  function Run(p: Program, window: Option<string>, w: World): (r: Outcome)
    requires Handles(p) <= w.names.Keys
    ensures r.world.names.Keys == w.names.Keys && (r.window.Some? <==> window.Some?)
  {
    match p
    case Alter(a, readOk, offOk, statements) => (
      match Enter(w, window, a, readOk, offOk)
      case Failed => Outcome(w, window, false)
      case Opened =>
        var off := SetState(w, a, w.names[a], false).0;
        var (done, ok) := AlterAll(off, a, statements);
        var (restored, back) := SetState(done, a, w.names[a], true);
        Outcome(restored, window, ok && back)
      case _ =>
        var (done, ok) := AlterAll(w, a, statements);
        Outcome(done, window, ok)
    )
    case Rename(a, newName, readOk, offOk, renameOk) =>
      if Blank(newName) then Outcome(w, window, false)
      else (
        match Enter(w, window, a, readOk, offOk)
        case Nested =>
          var (done, ok) := ModifyName(w, a, newName, renameOk);
          Outcome(done, if ok then Some(newName) else window, ok)
        case Failed => Outcome(w, window, false)
        case AlreadyOff =>
          var (done, ok) := ModifyName(w, a, newName, renameOk);
          Outcome(done, window, ok)
        case Opened =>
          var off := SetState(w, a, w.names[a], false).0;
          var (done, ok) := ModifyName(off, a, newName, renameOk);
          var (restored, back) := SetState(done, a, done.names[a], true);
          Outcome(restored, window, ok && back)
      )
    case Window(a, readOk, offOk, body) => (
      match Enter(w, window, a, readOk, offOk)
      case Nested => Run(body, window, w)
      case Failed => Outcome(w, window, false)
      case AlreadyOff =>
        var done := Run(body, Some(w.names[a]), w);
        Outcome(done.world, window, done.ok)
      case Opened =>
        var off := SetState(w, a, w.names[a], false).0;
        var done := Run(body, Some(w.names[a]), off);
        var (restored, back) := SetState(done.world, a, done.window.value, true);
        Outcome(restored, window, done.ok && back)
    )
    case Then(first, second) =>
      var mid := Run(first, window, w);
      if mid.ok then Run(second, mid.window, mid.world) else mid
    case Attempt(body) => Run(body, window, w).(ok := true)
    case Return(ok) => Outcome(w, window, ok)
  }

  // ---- what windows promise ----

  /** Every handle reaches an audit of its own. */
  ghost predicate Faithful(w: World) {
    && (forall a :: a in w.names ==> w.names[a] in w.audits)
    && (forall a, b :: a in w.names && b in w.names && a != b ==> OwnName(w, a, b))
  }

  predicate OwnName(w: World, a: Handle, b: Handle)
    requires a in w.names && b in w.names
  {
    w.names[a] != w.names[b]
  }

  /** The innermost window holds its audit's name, and that audit is off. */
  ghost predicate InSync(w: World, window: Option<string>, top: Option<Handle>) {
    match top
    case None => window == None
    case Some(a) => a in w.names && window == Some(w.names[a]) && !w.Enabled(a)
  }

  /** The promise: every audit is as enabled as it was, under the name it now
      has; every change met it disabled; the window still holds its audit's
      name; audits behind no handle are untouched. */
  ghost predicate Kept(w: World, top: Option<Handle>, frozen: set<Handle>, after: Outcome) {
    var w' := after.world;
    && w'.names.Keys == w.names.Keys && Faithful(w')
    && (forall a :: a in w.names ==> w'.Enabled(a) == w.Enabled(a))
    && InSync(w', after.window, top)
    && (forall a :: a in frozen && a in w.names ==> w'.names[a] == w.names[a])
    && Quiet(w, w')
  }

  ghost predicate ChangedWhileOff(w: World, w': World) {
    && |w.log| <= |w'.log|
    && (forall i :: 0 <= i < |w.log| ==> w'.log[i] == w.log[i])
    && (forall i :: |w.log| <= i < |w'.log| && w'.log[i].Changed? ==> !w'.log[i].wasEnabled)
  }

  /** Nothing done that should not have been. */
  ghost predicate Quiet(w: World, w': World) {
    ChangedWhileOff(w, w') && Untouched(w, w')
  }

  ghost predicate Held(w: World, name: string) {
    exists a :: a in w.names && w.names[a] == name
  }

  /** Audits no handle reaches stay as they are. */
  ghost predicate Untouched(w: World, w': World) {
    forall x :: x in w.audits && !Held(w, x) ==> StaysOut(w, w', x)
  }

  ghost predicate StaysOut(w: World, w': World, x: string)
    requires x in w.audits
  {
    x in w'.audits && w'.audits[x] == w.audits[x] && !Held(w', x)
  }

  /** No audit is renamed under another audit's window opened inside its own:
      `frozen` are the audits whose window is shadowed, `top` the audit whose
      window the context carries. */
  predicate Unshadowed(p: Program, top: Option<Handle>, frozen: set<Handle>) {
    match p
    case Alter(_, _, _, _) => true
    case Rename(a, _, _, _, _) => a !in frozen
    case Window(a, _, _, body) =>
      if top == Some(a) then Unshadowed(body, top, frozen)
      else Unshadowed(body, Some(a), if top.Some? then frozen + {top.value} else frozen)
    case Then(first, second) => Unshadowed(first, top, frozen) && Unshadowed(second, top, frozen)
    case Attempt(body) => Unshadowed(body, top, frozen)
    case Return(_) => true
  }

  // ---- the proof ----

  lemma SwitchKeeps(w: World, a: Handle, on: bool)
    requires Faithful(w) && a in w.names
    ensures var w' := SetState(w, a, w.names[a], on).0;
            && Faithful(w') && w'.names == w.names
            && (forall b :: b in w.names ==> w'.Enabled(b) == if b == a then on else w.Enabled(b))
            && Quiet(w, w')
  {
    var w' := SetState(w, a, w.names[a], on).0;
    forall b | b in w.names ensures w'.Enabled(b) == if b == a then on else w.Enabled(b) {
      if b != a { assert OwnName(w, a, b); }
    }
    forall x | x in w.audits && !Held(w, x) ensures StaysOut(w, w', x) {
      assert x != w.names[a];
    }
  }

  lemma ModifyKeeps(w: World, a: Handle, newName: string, ok: bool)
    requires Faithful(w) && a in w.names && !w.Enabled(a)
    ensures var (w', done) := ModifyName(w, a, newName, ok);
            && Faithful(w') && w'.names == (if done then w.names[a := newName] else w.names)
            && (forall b :: b in w.names ==> w'.Enabled(b) == w.Enabled(b))
            && Quiet(w, w')
  {
    var (w', done) := ModifyName(w, a, newName, ok);
    if done {
      forall b | b in w.names ensures w'.names[b] in w'.audits && w'.Enabled(b) == w.Enabled(b) {
        if b != a { assert OwnName(w, a, b); assert OwnName(w, b, a); }
      }
      forall b, c | b in w.names && c in w.names && b != c ensures OwnName(w', b, c) {
        assert OwnName(w, b, c);
      }
      forall x | x in w.audits && !Held(w, x) ensures StaysOut(w, w', x) {
        assert x != w.names[a];
        forall b | b in w'.names ensures w'.names[b] != x {
          if b != a { assert w.names[b] != x; }
        }
      }
    }
  }

  lemma AlterKeeps(w: World, a: Handle, statements: seq<bool>)
    requires Faithful(w) && a in w.names && !w.Enabled(a)
    ensures var w' := AlterAll(w, a, statements).0;
            w'.names == w.names && w'.audits == w.audits && Quiet(w, w')
    decreases |statements|
  {
    if statements == [] {
      QuietAlone(w);
    } else {
      var (next, ok) := AlterOne(w, a, statements[0]);
      forall x | x in w.audits && !Held(w, x) ensures StaysOut(w, next, x) { assert Held(next, x) ==> Held(w, x); }
      if ok {
        AlterKeeps(next, a, statements[1..]);
        QuietChain(w, next, AlterAll(next, a, statements[1..]).0);
      }
    }
  }

  lemma QuietAlone(w: World)
    ensures Quiet(w, w)
  {
    forall x | x in w.audits && !Held(w, x) ensures StaysOut(w, w, x) { }
  }

  lemma QuietChain(a: World, b: World, c: World)
    requires Quiet(a, b) && Quiet(b, c)
    ensures Quiet(a, c)
  {
    forall x | x in a.audits && !Held(a, x) ensures StaysOut(a, c, x) {
      assert StaysOut(a, b, x);
      assert StaysOut(b, c, x);
    }
  }

  lemma NestedIsTop(w: World, window: Option<string>, top: Option<Handle>, a: Handle)
    requires Faithful(w) && InSync(w, window, top) && a in w.names
    ensures window == Some(w.names[a]) <==> top == Some(a)
  {
    if top.Some? && top.value != a { assert OwnName(w, a, top.value); }
  }

  lemma KeptChain(w: World, top: Option<Handle>, frozen: set<Handle>, mid: Outcome, end: Outcome)
    requires Kept(w, top, frozen, mid) && Kept(mid.world, top, frozen, end)
    ensures Kept(w, top, frozen, end)
  {
    QuietChain(w, mid.world, end.world);
  }

  /** Off, anything that keeps states and does no harm, on again under the name
      the audit then has. */
  lemma ReopenKeeps(w: World, a: Handle, done: World)
    requires Faithful(w) && a in w.names && w.Enabled(a)
    requires var off := SetState(w, a, w.names[a], false).0;
             && Faithful(done) && done.names.Keys == w.names.Keys && Quiet(off, done)
             && (forall b :: b in w.names ==> done.Enabled(b) == off.Enabled(b))
    ensures var (end, back) := SetState(done, a, done.names[a], true);
            && back && Faithful(end) && end.names == done.names && Quiet(w, end)
            && (forall b :: b in w.names ==> end.Enabled(b) == w.Enabled(b))
  {
    var off := SetState(w, a, w.names[a], false).0;
    SwitchKeeps(w, a, false);
    SwitchKeeps(done, a, true);
    QuietChain(w, off, done);
    QuietChain(w, done, SetState(done, a, done.names[a], true).0);
  }

  /** Off, some statements, on. */
  lemma {:induction false} AlterOpened(a: Handle, statements: seq<bool>, w: World)
    requires Faithful(w) && a in w.names && w.Enabled(a)
    ensures var off := SetState(w, a, w.names[a], false).0;
            var end := SetState(AlterAll(off, a, statements).0, a, w.names[a], true).0;
            && Faithful(end) && end.names == w.names && Quiet(w, end)
            && (forall b :: b in w.names ==> end.Enabled(b) == w.Enabled(b))
  {
    var off := SetState(w, a, w.names[a], false).0;
    SwitchKeeps(w, a, false);
    AlterKeeps(off, a, statements);
    var done := AlterAll(off, a, statements).0;
    SameAudits(off, done);
    ReopenKeeps(w, a, done);
  }

  /** Worlds that differ in their logs alone. */
  lemma SameAudits(w: World, v: World)
    requires Faithful(w) && v.names == w.names && v.audits == w.audits
    ensures Faithful(v) && forall b :: b in w.names ==> v.Enabled(b) == w.Enabled(b)
  {
    assert forall a, b :: a in w.names && b in w.names && a != b ==> OwnName(w, a, b) == OwnName(v, a, b);
  }

  /** Off, a rename, on under whichever name holds. */
  lemma RenameOpened(a: Handle, newName: string, renameOk: bool, w: World)
    requires Faithful(w) && a in w.names && w.Enabled(a)
    ensures var off := SetState(w, a, w.names[a], false).0;
            var (done, ok) := ModifyName(off, a, newName, renameOk);
            var end := SetState(done, a, done.names[a], true).0;
            && Faithful(end) && end.names == (if ok then w.names[a := newName] else w.names) && Quiet(w, end)
            && (forall b :: b in w.names ==> end.Enabled(b) == w.Enabled(b))
  {
    SwitchKeeps(w, a, false);
    var off := SetState(w, a, w.names[a], false).0;
    ModifyKeeps(off, a, newName, renameOk);
    ReopenKeeps(w, a, ModifyName(off, a, newName, renameOk).0);
  }

  lemma {:induction false} AlterIsKept(a: Handle, readOk: bool, offOk: bool, statements: seq<bool>,
                    window: Option<string>, top: Option<Handle>, frozen: set<Handle>, w: World)
    requires Faithful(w) && InSync(w, window, top) && a in w.names
    ensures Kept(w, top, frozen, Run(Alter(a, readOk, offOk, statements), window, w))
  {
    NestedIsTop(w, window, top, a);
    match Enter(w, window, a, readOk, offOk) {
      case Failed => QuietAlone(w);
      case Opened => AlterOpened(a, statements, w);
      case _ => AlterKeeps(w, a, statements);
    }
  }

  lemma RenameIsKept(a: Handle, newName: string, readOk: bool, offOk: bool, renameOk: bool,
                     window: Option<string>, top: Option<Handle>, frozen: set<Handle>, w: World)
    requires Faithful(w) && InSync(w, window, top) && a in w.names && a !in frozen
    ensures Kept(w, top, frozen, Run(Rename(a, newName, readOk, offOk, renameOk), window, w))
  {
    NestedIsTop(w, window, top, a);
    if Blank(newName) {
      QuietAlone(w);
    } else {
      match Enter(w, window, a, readOk, offOk) {
        case Failed => QuietAlone(w);
        case Opened => RenameOpened(a, newName, renameOk, w);
        case _ => ModifyKeeps(w, a, newName, renameOk);
      }
    }
  }

  /** The restore of a window whose body kept its promise. */
  lemma RestoreIsKept(w: World, a: Handle, window: Option<string>, top: Option<Handle>, frozen: set<Handle>,
                      done: Outcome)
    requires Faithful(w) && InSync(w, window, top) && a in w.names && w.Enabled(a) && top != Some(a)
    requires Kept(SetState(w, a, w.names[a], false).0, Some(a),
                  if top.Some? then frozen + {top.value} else frozen, done)
    ensures var (restored, back) := SetState(done.world, a, done.window.value, true);
            back && Kept(w, top, frozen, Outcome(restored, window, done.ok && back))
  {
    var off := SetState(w, a, w.names[a], false).0;
    SwitchKeeps(w, a, false);
    SwitchKeeps(done.world, a, true);
    QuietChain(w, off, done.world);
    QuietChain(w, done.world, SetState(done.world, a, done.window.value, true).0);
  }

  /** Every program that renames no audit under a shadowing window keeps the
      promise, with any step failing anywhere. */
  lemma {:induction false} RunKeeps(p: Program, window: Option<string>, top: Option<Handle>,
                                    frozen: set<Handle>, w: World)
    requires Faithful(w) && InSync(w, window, top) && Handles(p) <= w.names.Keys
    requires Unshadowed(p, top, frozen)
    ensures Kept(w, top, frozen, Run(p, window, w))
  {
    match p
    case Alter(a, readOk, offOk, statements) =>
      AlterIsKept(a, readOk, offOk, statements, window, top, frozen, w);
    case Rename(a, newName, readOk, offOk, renameOk) =>
      RenameIsKept(a, newName, readOk, offOk, renameOk, window, top, frozen, w);
    case Window(a, readOk, offOk, body) =>
      NestedIsTop(w, window, top, a);
      var frozen' := if top.Some? then frozen + {top.value} else frozen;
      match Enter(w, window, a, readOk, offOk) {
        case Nested => RunKeeps(body, window, top, frozen, w);
        case Failed => QuietAlone(w);
        case AlreadyOff =>
          RunKeeps(body, Some(w.names[a]), Some(a), frozen', w);
        case Opened =>
          SwitchKeeps(w, a, false);
          var off := SetState(w, a, w.names[a], false).0;
          RunKeeps(body, Some(w.names[a]), Some(a), frozen', off);
          RestoreIsKept(w, a, window, top, frozen, Run(body, Some(w.names[a]), off));
      }
    case Then(first, second) =>
      RunKeeps(first, window, top, frozen, w);
      var mid := Run(first, window, w);
      if mid.ok {
        RunKeeps(second, mid.window, top, frozen, mid.world);
        KeptChain(w, top, frozen, mid, Run(second, mid.window, mid.world));
      }
    case Attempt(body) => RunKeeps(body, window, top, frozen, w);
    case Return(_) => QuietAlone(w);
  }

  // ---- one audit ----

  /** A program on one audit shadows nothing. */
  lemma {:induction false} OneAuditIsUnshadowed(p: Program, a: Handle, top: Option<Handle>)
    requires Handles(p) <= {a} && (top.Some? ==> top.value == a)
    ensures Unshadowed(p, top, {})
  {
    match p
    case Window(b, _, _, body) =>
      assert b in Handles(p);
      OneAuditIsUnshadowed(body, a, Some(a));
    case Then(first, second) =>
      OneAuditIsUnshadowed(first, a, top);
      OneAuditIsUnshadowed(second, a, top);
    case Attempt(body) => OneAuditIsUnshadowed(body, a, top);
    case _ =>
  }

  /** On one audit, windows, changes and renames in any nesting, failing
      anywhere, leave it as enabled as it was under the name it then has. */
  lemma {:induction false} OneAuditKeeps(p: Program, a: Handle, w: World)
    requires Faithful(w) && Handles(p) <= {a} && a in w.names
    ensures Kept(w, None, {}, Run(p, None, w))
  {
    OneAuditIsUnshadowed(p, a, None);
    RunKeeps(p, None, None, {}, w);
  }

  /** The switches of one audit, in order: false is off. */
  function Toggles(log: seq<Event>, a: Handle): seq<bool> {
    if log == [] then []
    else
      var rest, last := Toggles(log[..|log| - 1], a), log[|log| - 1];
      if last.Switched? && last.audit == a then rest + [last.on] else rest
  }

  lemma TogglesSnoc(log: seq<Event>, e: Event, a: Handle)
    ensures Toggles(log + [e], a) == Toggles(log, a) + if e.Switched? && e.audit == a then [e.on] else []
  {
    assert (log + [e])[..|log|] == log;
  }

  lemma {:induction false} TogglesOfAlters(w: World, b: Handle, statements: seq<bool>, a: Handle)
    requires b in w.names
    ensures Toggles(AlterAll(w, b, statements).0.log, a) == Toggles(w.log, a)
    decreases |statements|
  {
    if statements != [] {
      var (next, ok) := AlterOne(w, b, statements[0]);
      TogglesSnoc(w.log, Changed(b, w.Enabled(b)), a);
      if ok { TogglesOfAlters(next, b, statements[1..], a); }
    }
  }

  lemma TogglesHere(w: World, a: Handle, name: string, on: bool)
    requires name in w.audits
    ensures Toggles(SetState(w, a, name, on).0.log, a) == Toggles(w.log, a) + [on]
  {
    TogglesSnoc(w.log, Switched(a, on), a);
  }

  /** A switch of another audit, or a rename, is none of this one's. */
  lemma TogglesElsewhere(w: World, b: Handle, name: string, on: bool, a: Handle)
    requires a != b
    ensures Toggles(SetState(w, b, name, on).0.log, a) == Toggles(w.log, a)
  {
    TogglesSnoc(w.log, Switched(b, on), a);
  }

  lemma TogglesOfRename(w: World, b: Handle, newName: string, ok: bool, a: Handle)
    requires b in w.names
    ensures Toggles(ModifyName(w, b, newName, ok).0.log, a) == Toggles(w.log, a)
  {
    TogglesSnoc(w.log, Changed(b, w.Enabled(b)), a);
  }

  /** An audit that is off is not switched at all: within its window, auditing
      does not stop again, renames included. */
  lemma {:induction false} OffStaysUntouched(p: Program, window: Option<string>, top: Option<Handle>,
                                             frozen: set<Handle>, w: World, a: Handle)
    requires Faithful(w) && InSync(w, window, top) && Handles(p) <= w.names.Keys
    requires Unshadowed(p, top, frozen)
    requires a in w.names && !w.Enabled(a)
    ensures Toggles(Run(p, window, w).world.log, a) == Toggles(w.log, a)
  {
    match p
    case Alter(b, readOk, offOk, statements) => OffThroughAlter(b, readOk, offOk, statements, window, w, a);
    case Rename(b, newName, readOk, offOk, renameOk) =>
      OffThroughRename(b, newName, readOk, offOk, renameOk, window, w, a);
    case Window(b, readOk, offOk, body) =>
      NestedIsTop(w, window, top, b);
      var frozen' := if top.Some? then frozen + {top.value} else frozen;
      match Enter(w, window, b, readOk, offOk) {
        case Nested => OffStaysUntouched(body, window, top, frozen, w, a);
        case Failed =>
        case AlreadyOff => OffStaysUntouched(body, Some(w.names[b]), Some(b), frozen', w, a);
        case Opened =>
          var off := SetState(w, b, w.names[b], false).0;
          SwitchKeeps(w, b, false);
          OffStaysUntouched(body, Some(w.names[b]), Some(b), frozen', off, a);
          var done := Run(body, Some(w.names[b]), off);
          TogglesElsewhere(w, b, w.names[b], false, a);
          TogglesElsewhere(done.world, b, done.window.value, true, a);
      }
    case Then(first, second) =>
      RunKeeps(first, window, top, frozen, w);
      OffStaysUntouched(first, window, top, frozen, w, a);
      var mid := Run(first, window, w);
      if mid.ok { OffStaysUntouched(second, mid.window, top, frozen, mid.world, a); }
    case Attempt(body) => OffStaysUntouched(body, window, top, frozen, w, a);
    case Return(_) =>
  }

  lemma {:induction false} OffThroughAlter(b: Handle, readOk: bool, offOk: bool, statements: seq<bool>,
                        window: Option<string>, w: World, a: Handle)
    requires a in w.names && b in w.names && !w.Enabled(a)
    ensures Toggles(Run(Alter(b, readOk, offOk, statements), window, w).world.log, a) == Toggles(w.log, a)
  {
    TogglesOfAlters(w, b, statements, a);
    if Enter(w, window, b, readOk, offOk) == Opened {
      var off := SetState(w, b, w.names[b], false).0;
      TogglesElsewhere(w, b, w.names[b], false, a);
      TogglesOfAlters(off, b, statements, a);
      TogglesElsewhere(AlterAll(off, b, statements).0, b, w.names[b], true, a);
    }
  }

  lemma TogglesOfOpenedRename(b: Handle, newName: string, renameOk: bool, w: World, a: Handle)
    requires b in w.names && a != b
    ensures var off := SetState(w, b, w.names[b], false).0;
            var done := ModifyName(off, b, newName, renameOk).0;
            Toggles(SetState(done, b, done.names[b], true).0.log, a) == Toggles(w.log, a)
  {
    var off := SetState(w, b, w.names[b], false).0;
    TogglesElsewhere(w, b, w.names[b], false, a);
    TogglesOfRename(off, b, newName, renameOk, a);
    var done := ModifyName(off, b, newName, renameOk).0;
    TogglesElsewhere(done, b, done.names[b], true, a);
  }

  lemma OffThroughRename(b: Handle, newName: string, readOk: bool, offOk: bool, renameOk: bool,
                         window: Option<string>, w: World, a: Handle)
    requires a in w.names && b in w.names && !w.Enabled(a)
    ensures Toggles(Run(Rename(b, newName, readOk, offOk, renameOk), window, w).world.log, a) == Toggles(w.log, a)
  {
    match Enter(w, window, b, readOk, offOk) {
      case Failed =>
      case Opened => TogglesOfOpenedRename(b, newName, renameOk, w, a);
      case _ => TogglesOfRename(w, b, newName, renameOk, a);
    }
  }

  /** A window that opens switches its audit off once and on once, whatever its
      body renames. */
  lemma {:induction false} OneWindowOnePair(a: Handle, body: Program, window: Option<string>, top: Option<Handle>,
                         frozen: set<Handle>, w: World)
    requires Faithful(w) && InSync(w, window, top) && a in w.names && Handles(body) <= w.names.Keys
    requires Enter(w, window, a, true, true) == Opened
    requires Unshadowed(Window(a, true, true, body), top, frozen)
    ensures Toggles(Run(Window(a, true, true, body), window, w).world.log, a) == Toggles(w.log, a) + [false, true]
  {
    NestedIsTop(w, window, top, a);
    var frozen' := if top.Some? then frozen + {top.value} else frozen;
    PairAround(a, body, frozen', w);
  }

  lemma {:induction false} PairAround(a: Handle, body: Program, frozen: set<Handle>, w: World)
    requires Faithful(w) && a in w.names && w.Enabled(a) && Handles(body) <= w.names.Keys
    requires Unshadowed(body, Some(a), frozen)
    ensures var off := SetState(w, a, w.names[a], false).0;
            var done := Run(body, Some(w.names[a]), off);
            Toggles(SetState(done.world, a, done.window.value, true).0.log, a) == Toggles(w.log, a) + [false, true]
  {
    var off := SetState(w, a, w.names[a], false).0;
    SwitchKeeps(w, a, false);
    OffStaysUntouched(body, Some(w.names[a]), Some(a), frozen, off, a);
    RunKeeps(body, Some(w.names[a]), Some(a), frozen, off);
    TogglesHere(w, a, w.names[a], false);
    var done := Run(body, Some(w.names[a]), off);
    TogglesHere(done.world, a, done.window.value, true);
  }

  // ---- the switches of a whole program ----

  /** Between two logs the audit was switched off and on k times. */
  ghost predicate Grew(before: seq<Event>, after: seq<Event>, a: Handle, k: nat) {
    Toggles(after, a) == ThenPairs(Toggles(before, a), k)
  }

  lemma {:induction false} PairsChain(before: seq<Event>, mid: seq<Event>, after: seq<Event>, a: Handle, j: nat, k: nat)
    requires Grew(before, mid, a, j) && Grew(mid, after, a, k)
    ensures Grew(before, after, a, j + k)
  {
    PairsAdd(Toggles(before, a), j, k);
  }

  /** The outermost windows on an audit, and its writes outside them. */
  function Outer(p: Program, a: Handle): nat {
    match p
    case Alter(b, _, _, _) => One(b == a)
    case Rename(b, _, _, _, _) => One(b == a)
    case Window(b, _, _, body) => if b == a then 1 else Outer(body, a)
    case Then(first, second) => Outer(first, a) + Outer(second, a)
    case Attempt(body) => Outer(body, a)
    case Return(_) => 0
  }

  /** Those of them that are reached and find the audit enabled. */
  function Opens(p: Program, window: Option<string>, w: World, a: Handle): nat
    requires Handles(p) <= w.names.Keys
  {
    match p
    case Alter(b, readOk, offOk, _) => One(b == a && Enter(w, window, b, readOk, offOk) == Opened)
    case Rename(b, newName, readOk, offOk, _) =>
      One(b == a && !Blank(newName) && Enter(w, window, b, readOk, offOk) == Opened)
    case Window(b, readOk, offOk, body) => (
      match Enter(w, window, b, readOk, offOk)
      case Nested => Opens(body, window, w, a)
      case Failed => 0
      case AlreadyOff => Opens(body, Some(w.names[b]), w, a)
      case Opened =>
        if b == a then 1 else Opens(body, Some(w.names[b]), SetState(w, b, w.names[b], false).0, a)
    )
    case Then(first, second) =>
      var mid := Run(first, window, w);
      Opens(first, window, w, a) + if mid.ok then Opens(second, mid.window, mid.world, a) else 0
    case Attempt(body) => Opens(body, window, w, a)
    case Return(_) => 0
  }

  lemma {:induction false} PairOfAlter(a: Handle, statements: seq<bool>, w: World)
    requires a in w.names && w.Enabled(a)
    ensures var off := SetState(w, a, w.names[a], false).0;
            var end := SetState(AlterAll(off, a, statements).0, a, w.names[a], true).0;
            Toggles(end.log, a) == Toggles(w.log, a) + [false, true]
  {
    var off := SetState(w, a, w.names[a], false).0;
    TogglesHere(w, a, w.names[a], false);
    TogglesOfAlters(off, a, statements, a);
    TogglesHere(AlterAll(off, a, statements).0, a, w.names[a], true);
  }

  lemma PairOfRename(a: Handle, newName: string, renameOk: bool, w: World)
    requires Faithful(w) && a in w.names && w.Enabled(a)
    ensures var off := SetState(w, a, w.names[a], false).0;
            var done := ModifyName(off, a, newName, renameOk).0;
            Toggles(SetState(done, a, done.names[a], true).0.log, a) == Toggles(w.log, a) + [false, true]
  {
    var off := SetState(w, a, w.names[a], false).0;
    SwitchKeeps(w, a, false);
    ModifyKeeps(off, a, newName, renameOk);
    var done := ModifyName(off, a, newName, renameOk).0;
    TogglesHere(w, a, w.names[a], false);
    TogglesOfRename(off, a, newName, renameOk, a);
    TogglesHere(done, a, done.names[a], true);
  }

  lemma {:induction false} TogglesOfOpenedAlter(b: Handle, statements: seq<bool>, w: World, a: Handle)
    requires b in w.names && a != b
    ensures var off := SetState(w, b, w.names[b], false).0;
            Toggles(SetState(AlterAll(off, b, statements).0, b, w.names[b], true).0.log, a) == Toggles(w.log, a)
  {
    var off := SetState(w, b, w.names[b], false).0;
    TogglesElsewhere(w, b, w.names[b], false, a);
    TogglesOfAlters(off, b, statements, a);
    TogglesElsewhere(AlterAll(off, b, statements).0, b, w.names[b], true, a);
  }

  /** What a program's switches of an audit come to. */
  ghost predicate Paired(p: Program, window: Option<string>, w: World, a: Handle)
    requires Handles(p) <= w.names.Keys
  {
    Grew(w.log, Run(p, window, w).world.log, a, Opens(p, window, w, a))
  }

  lemma {:induction false} AlterIsPaired(b: Handle, readOk: bool, offOk: bool, statements: seq<bool>,
                      window: Option<string>, w: World, a: Handle)
    requires b in w.names
    ensures Paired(Alter(b, readOk, offOk, statements), window, w, a)
  {
    FewPairs(Toggles(w.log, a));
    match Enter(w, window, b, readOk, offOk) {
      case Failed =>
      case Opened =>
        if b == a { PairOfAlter(a, statements, w); } else { TogglesOfOpenedAlter(b, statements, w, a); }
      case _ => TogglesOfAlters(w, b, statements, a);
    }
  }

  /** What a rename leaves, by how it begins. */
  lemma RenameRuns(b: Handle, newName: string, readOk: bool, offOk: bool, renameOk: bool,
                   window: Option<string>, w: World)
    requires b in w.names
    ensures var r := Run(Rename(b, newName, readOk, offOk, renameOk), window, w);
            if Blank(newName) then r.world == w && !r.ok
            else
              match Enter(w, window, b, readOk, offOk)
              case Failed => r.world == w && !r.ok
              case Opened =>
                var (done, ok) := ModifyName(SetState(w, b, w.names[b], false).0, b, newName, renameOk);
                var (end, back) := SetState(done, b, done.names[b], true);
                r.world == end && r.ok == (ok && back)
              case _ => (r.world, r.ok) == ModifyName(w, b, newName, renameOk)
  {
  }

  lemma OpenedRenameIsPaired(b: Handle, newName: string, renameOk: bool, w: World, a: Handle)
    requires Faithful(w) && b in w.names && w.Enabled(b)
    ensures var done := ModifyName(SetState(w, b, w.names[b], false).0, b, newName, renameOk).0;
            Grew(w.log, SetState(done, b, done.names[b], true).0.log, a, One(b == a))
  {
    FewPairs(Toggles(w.log, a));
    if b == a { PairOfRename(a, newName, renameOk, w); } else { TogglesOfOpenedRename(b, newName, renameOk, w, a); }
  }

  lemma UnopenedRenameIsPaired(b: Handle, newName: string, renameOk: bool, w: World, a: Handle)
    requires b in w.names
    ensures Grew(w.log, w.log, a, 0) && Grew(w.log, ModifyName(w, b, newName, renameOk).0.log, a, 0)
  {
    FewPairs(Toggles(w.log, a));
    TogglesOfRename(w, b, newName, renameOk, a);
  }

  /** A window on another audit adds nothing to this one's switches. */
  lemma {:induction false} OtherWindowIsPaired(b: Handle, body: Program, w: World, a: Handle)
    requires b in w.names && a != b && Handles(body) <= w.names.Keys
    requires Paired(body, Some(w.names[b]), SetState(w, b, w.names[b], false).0, a)
    ensures var off := SetState(w, b, w.names[b], false).0;
            var done := Run(body, Some(w.names[b]), off);
            Grew(w.log, SetState(done.world, b, done.window.value, true).0.log, a,
                 Opens(body, Some(w.names[b]), off, a))
  {
    var off := SetState(w, b, w.names[b], false).0;
    var done := Run(body, Some(w.names[b]), off);
    TogglesElsewhere(w, b, w.names[b], false, a);
    TogglesElsewhere(done.world, b, done.window.value, true, a);
  }

  /** What a sequence runs, and what opens in it. */
  lemma {:induction false} ThenRuns(first: Program, second: Program, window: Option<string>, w: World, a: Handle)
    requires Handles(first) <= w.names.Keys && Handles(second) <= w.names.Keys
    ensures var mid := Run(first, window, w);
            var j := Opens(first, window, w, a);
            if mid.ok then
              && Run(Then(first, second), window, w) == Run(second, mid.window, mid.world)
              && Opens(Then(first, second), window, w, a) == j + Opens(second, mid.window, mid.world, a)
            else Run(Then(first, second), window, w) == mid && Opens(Then(first, second), window, w, a) == j
  {
  }

  /** Two parts, one after the other. */
  lemma {:induction false} BothArePaired(before: seq<Event>, mid: Outcome, second: Program, j: nat, a: Handle)
    requires Handles(second) <= mid.world.names.Keys
    requires Grew(before, mid.world.log, a, j) && Paired(second, mid.window, mid.world, a)
    ensures Grew(before, Run(second, mid.window, mid.world).world.log, a, j + Opens(second, mid.window, mid.world, a))
  {
    PairsChain(before, mid.world.log, Run(second, mid.window, mid.world).world.log, a,
               j, Opens(second, mid.window, mid.world, a));
  }

  lemma {:induction false} ThenIsPaired(first: Program, second: Program, window: Option<string>, w: World, a: Handle)
    requires Handles(first) <= w.names.Keys && Handles(second) <= w.names.Keys && Paired(first, window, w, a)
    requires var mid := Run(first, window, w); mid.ok ==> Paired(second, mid.window, mid.world, a)
    ensures Paired(Then(first, second), window, w, a)
  {
    var mid := Run(first, window, w);
    ThenRuns(first, second, window, w, a);
    if mid.ok { BothArePaired(w.log, mid, second, Opens(first, window, w, a), a); }
  }

  /** Whatever a program does to whichever audits, failing anywhere: an audit is
      switched off once and on once for each of its outermost windows and
      separate writes that opened, and not otherwise. */
  lemma {:induction false} SwitchesArePaired(p: Program, window: Option<string>, top: Option<Handle>,
                                             frozen: set<Handle>, w: World, a: Handle)
    requires Faithful(w) && InSync(w, window, top) && Handles(p) <= w.names.Keys
    requires Unshadowed(p, top, frozen) && a in w.names
    ensures Paired(p, window, w, a)
  {
    match p
    case Alter(b, readOk, offOk, statements) => AlterIsPaired(b, readOk, offOk, statements, window, w, a);
    case Rename(b, newName, readOk, offOk, renameOk) =>
      RenameRuns(b, newName, readOk, offOk, renameOk, window, w);
      UnopenedRenameIsPaired(b, newName, renameOk, w, a);
      if Enter(w, window, b, readOk, offOk) == Opened { OpenedRenameIsPaired(b, newName, renameOk, w, a); }
    case Window(b, readOk, offOk, body) =>
      NestedIsTop(w, window, top, b);
      FewPairs(Toggles(w.log, a));
      var frozen' := if top.Some? then frozen + {top.value} else frozen;
      match Enter(w, window, b, readOk, offOk) {
        case Nested => SwitchesArePaired(body, window, top, frozen, w, a);
        case Failed =>
        case AlreadyOff => SwitchesArePaired(body, Some(w.names[b]), Some(b), frozen', w, a);
        case Opened =>
          if b == a {
            PairAround(a, body, frozen', w);
          } else {
            SwitchKeeps(w, b, false);
            SwitchesArePaired(body, Some(w.names[b]), Some(b), frozen', SetState(w, b, w.names[b], false).0, a);
            OtherWindowIsPaired(b, body, w, a);
          }
      }
    case Then(first, second) =>
      RunKeeps(first, window, top, frozen, w);
      SwitchesArePaired(first, window, top, frozen, w, a);
      var mid := Run(first, window, w);
      if mid.ok { SwitchesArePaired(second, mid.window, top, frozen, mid.world, a); }
      ThenIsPaired(first, second, window, w, a);
    case Attempt(body) => SwitchesArePaired(body, window, top, frozen, w, a);
    case Return(_) => FewPairs(Toggles(w.log, a));
  }

  /** An audit that is off opens nothing. */
  lemma {:induction false} OffOpensNone(p: Program, window: Option<string>, top: Option<Handle>,
                                        frozen: set<Handle>, w: World, a: Handle)
    requires Faithful(w) && InSync(w, window, top) && Handles(p) <= w.names.Keys
    requires Unshadowed(p, top, frozen) && a in w.names && !w.Enabled(a)
    ensures Opens(p, window, w, a) == 0
  {
    OffStaysUntouched(p, window, top, frozen, w, a);
    SwitchesArePaired(p, window, top, frozen, w, a);
  }

  /** No window opens twice: at most once for each outermost window or separate
      write. */
  lemma {:induction false} OpensAreOuter(p: Program, window: Option<string>, top: Option<Handle>,
                                         frozen: set<Handle>, w: World, a: Handle)
    requires Faithful(w) && InSync(w, window, top) && Handles(p) <= w.names.Keys
    requires Unshadowed(p, top, frozen) && a in w.names
    ensures Opens(p, window, w, a) <= Outer(p, a)
  {
    match p
    case Window(b, readOk, offOk, body) =>
      NestedIsTop(w, window, top, b);
      var frozen' := if top.Some? then frozen + {top.value} else frozen;
      match Enter(w, window, b, readOk, offOk) {
        case Nested =>
          if b == a {
            OffOpensNone(body, window, top, frozen, w, a);
          } else {
            OpensAreOuter(body, window, top, frozen, w, a);
          }
        case Failed =>
        case AlreadyOff =>
          if b == a {
            OffOpensNone(body, Some(w.names[b]), Some(b), frozen', w, a);
          } else {
            OpensAreOuter(body, Some(w.names[b]), Some(b), frozen', w, a);
          }
        case Opened =>
          if b != a {
            SwitchKeeps(w, b, false);
            OpensAreOuter(body, Some(w.names[b]), Some(b), frozen', SetState(w, b, w.names[b], false).0, a);
          }
      }
    case Then(first, second) =>
      RunKeeps(first, window, top, frozen, w);
      OpensAreOuter(first, window, top, frozen, w, a);
      var mid := Run(first, window, w);
      if mid.ok { OpensAreOuter(second, mid.window, top, frozen, mid.world, a); }
    case Attempt(body) => OpensAreOuter(body, window, top, frozen, w, a);
    case _ =>
  }

  /** No step's failure is passed over. */
  predicate Straight(p: Program) {
    match p
    case Window(_, _, _, body) => Straight(body)
    case Then(first, second) => Straight(first) && Straight(second)
    case Attempt(_) => false
    case _ => true
  }

  /** A program that returned no error opened each of them. */
  lemma {:induction false} AllOpen(p: Program, window: Option<string>, top: Option<Handle>,
                                   frozen: set<Handle>, w: World, a: Handle)
    requires Faithful(w) && InSync(w, window, top) && Handles(p) <= w.names.Keys
    requires Unshadowed(p, top, frozen) && a in w.names && w.Enabled(a)
    requires Straight(p) && Run(p, window, w).ok
    ensures Opens(p, window, w, a) == Outer(p, a)
  {
    match p
    case Alter(b, _, _, _) => NestedIsTop(w, window, top, b);
    case Rename(b, _, _, _, _) => NestedIsTop(w, window, top, b);
    case Window(b, readOk, offOk, body) =>
      NestedIsTop(w, window, top, b);
      var frozen' := if top.Some? then frozen + {top.value} else frozen;
      match Enter(w, window, b, readOk, offOk) {
        case Nested => AllOpen(body, window, top, frozen, w, a);
        case Failed =>
        case AlreadyOff => AllOpen(body, Some(w.names[b]), Some(b), frozen', w, a);
        case Opened =>
          if b != a {
            SwitchKeeps(w, b, false);
            AllOpen(body, Some(w.names[b]), Some(b), frozen', SetState(w, b, w.names[b], false).0, a);
          }
      }
    case Then(first, second) =>
      RunKeeps(first, window, top, frozen, w);
      AllOpen(first, window, top, frozen, w, a);
      var mid := Run(first, window, w);
      AllOpen(second, mid.window, top, frozen, mid.world, a);
    case Return(_) =>
  }

  /** Any program on one audit, failing anywhere: its switches are one off and
      one on for each outermost window and separate write that opened. If it
      began off there are none, and if it began on and nothing failed, none is
      missing. */
  lemma {:induction false} OneAuditSwitches(p: Program, a: Handle, w: World)
    requires Faithful(w) && Handles(p) <= {a} && a in w.names
    ensures var k := Opens(p, None, w, a);
            && Grew(w.log, Run(p, None, w).world.log, a, k)
            && k <= Outer(p, a) && (!w.Enabled(a) ==> k == 0)
            && (w.Enabled(a) && Straight(p) && Run(p, None, w).ok ==> k == Outer(p, a))
  {
    OneAuditIsUnshadowed(p, a, None);
    SwitchesArePaired(p, None, None, {}, w, a);
    OpensAreOuter(p, None, None, {}, w, a);
    if !w.Enabled(a) {
      OffOpensNone(p, None, None, {}, w, a);
    } else if Straight(p) && Run(p, None, w).ok {
      AllOpen(p, None, None, {}, w, a);
    }
  }

  // ---- what a program sends, and what it returns ----

  predicate AllTrue(statements: seq<bool>) {
    forall i :: 0 <= i < |statements| ==> statements[i]
  }

  /** How many of a write's statements are sent: up to and including the first
      that fails. */
  function SentOf(statements: seq<bool>): (k: nat)
    ensures k <= |statements|
    ensures forall i :: 0 <= i < k - 1 ==> statements[i]
    ensures k < |statements| ==> k > 0 && !statements[k - 1]
    ensures AllTrue(statements) ==> k == |statements|
  {
    if statements == [] then 0
    else if !statements[0] then 1
    else
      var rest := SentOf(statements[1..]);
      assert forall i :: 1 <= i < |statements| ==> statements[i] == statements[1..][i - 1];
      1 + rest
  }

  /** k changes, each met by the audit switched off. */
  function Changes(a: Handle, k: nat): (r: seq<Event>)
    ensures |r| == k
  {
    seq(k, i => Changed(a, false))
  }

  /** An ALTER whose audit is off sends its statements up to the first that fails,
      and returns no error exactly if none does. */
  lemma {:induction false} AlterSends(w: World, a: Handle, statements: seq<bool>)
    requires a in w.names && w.names[a] in w.audits && !w.Enabled(a)
    ensures AlterAll(w, a, statements) ==
            (w.(log := w.log + Changes(a, SentOf(statements))), AllTrue(statements))
    decreases |statements|
  {
    if statements == [] {
      assert w.log + Changes(a, 0) == w.log;
    } else if !statements[0] {
      assert w.log + Changes(a, 1) == w.log + [Changed(a, false)];
    } else {
      var (next, ok) := AlterOne(w, a, statements[0]);
      var rest := statements[1..];
      AlterSends(next, a, rest);
      assert w.log + [Changed(a, false)] + Changes(a, SentOf(rest)) == w.log + Changes(a, 1 + SentOf(rest));
      assert AllTrue(statements) <==> AllTrue(rest) by {
        assert statements == [statements[0]] + rest;
      }
    }
  }

  /** A separate ALTER that opens: its log to the last event, and its fate. */
  lemma AlterLog(a: Handle, readOk: bool, offOk: bool, statements: seq<bool>, window: Option<string>, w: World)
    requires a in w.names && Enter(w, window, a, readOk, offOk) == Opened
    ensures Run(Alter(a, readOk, offOk, statements), window, w) ==
            Outcome(w.(log := w.log + [Switched(a, false)] + Changes(a, SentOf(statements)) + [Switched(a, true)]),
                    window, AllTrue(statements))
  {
    var off := SetState(w, a, w.names[a], false).0;
    AlterSends(off, a, statements);
    assert w.audits[w.names[a] := false][w.names[a] := true] == w.audits;
  }

  /** What the fates of steps run against: the audits that are on, the name each
      handle holds, and the names the server has. */
  datatype Known = Known(on: set<Handle>, names: map<Handle, string>, taken: set<string>)

  function KnownOf(w: World): Known {
    Known((set a | a in w.names && w.Enabled(a)), w.names, w.audits.Keys)
  }

  /** The function a window runs is reached: under the audit's own window, or once
      the state is read and, if it is on, switched off. */
  predicate Reached(a: Handle, readOk: bool, offOk: bool, top: Option<Handle>, k: Known) {
    top == Some(a) || (readOk && (a in k.on ==> offOk))
  }

  function Inside(a: Handle, k: Known): Known {
    k.(on := k.on - {a})
  }

  /** A rename the server takes: to a name no other audit has. */
  predicate Takes(k: Known, a: Handle, newName: string, renameOk: bool)
    requires a in k.names
  {
    renameOk && (newName !in k.taken || newName == k.names[a])
  }

  function Renamed(k: Known, a: Handle, newName: string): Known
    requires a in k.names
  {
    k.(names := k.names[a := newName], taken := k.taken - {k.names[a]} + {newName})
  }

  /** The error a program returns, the changes of one audit it sends, and the
      names it leaves. */
  datatype Told = Told(ok: bool, sent: nat, after: Known)

  /** All of it from the steps' fates, with no window, no log and no server. */
  function Tell(p: Program, top: Option<Handle>, k: Known, a: Handle): (t: Told)
    requires Handles(p) <= k.names.Keys
    ensures t.after.names.Keys == k.names.Keys
  {
    match p
    case Alter(b, readOk, offOk, statements) =>
      if !Reached(b, readOk, offOk, top, k) then Told(false, 0, k)
      else Told(AllTrue(statements), if b == a then SentOf(statements) else 0, k)
    case Rename(b, newName, readOk, offOk, renameOk) =>
      if Blank(newName) || !Reached(b, readOk, offOk, top, k) then Told(false, 0, k)
      else if Takes(k, b, newName, renameOk) then Told(true, One(b == a), Renamed(k, b, newName))
      else Told(false, One(b == a), k)
    case Window(b, readOk, offOk, body) =>
      if !Reached(b, readOk, offOk, top, k) then Told(false, 0, k)
      else
        var t := Tell(body, Some(b), Inside(b, k), a);
        t.(after := t.after.(on := k.on))
    case Then(first, second) =>
      var t := Tell(first, top, k, a);
      if !t.ok then t
      else
        var u := Tell(second, top, t.after, a);
        u.(sent := t.sent + u.sent)
    case Attempt(body) => Tell(body, top, k, a).(ok := true)
    case Return(ok) => Told(ok, 0, k)
  }

  function ChangeCount(log: seq<Event>, a: Handle): nat {
    if log == [] then 0
    else
      var last := log[|log| - 1];
      ChangeCount(log[..|log| - 1], a) + One(last.Changed? && last.audit == a)
  }

  lemma ChangesSnoc(log: seq<Event>, e: Event, a: Handle)
    ensures ChangeCount(log + [e], a) == ChangeCount(log, a) + One(e.Changed? && e.audit == a)
  {
    assert (log + [e])[..|log|] == log;
  }

  lemma {:induction false} CountOfChanges(log: seq<Event>, b: Handle, k: nat, a: Handle)
    ensures ChangeCount(log + Changes(b, k), a) == ChangeCount(log, a) + if b == a then k else 0
  {
    if k == 0 {
      assert log + Changes(b, 0) == log;
    } else {
      CountOfChanges(log, b, k - 1, a);
      assert log + Changes(b, k) == log + Changes(b, k - 1) + [Changed(b, false)];
      ChangesSnoc(log + Changes(b, k - 1), Changed(b, false), a);
    }
  }

  /** Between two logs k changes were sent. */
  ghost predicate Sent(before: seq<Event>, after: seq<Event>, a: Handle, k: nat) {
    ChangeCount(after, a) == ChangeCount(before, a) + k
  }

  /** What the program's run is to what its fates tell. */
  ghost predicate RunsAsTold(p: Program, window: Option<string>, top: Option<Handle>, w: World, a: Handle)
    requires Handles(p) <= w.names.Keys
  {
    IsTold(w, Run(p, window, w).world, Run(p, window, w).ok, Tell(p, top, KnownOf(w), a), a)
  }

  ghost predicate IsTold(w: World, end: World, ok: bool, t: Told, a: Handle) {
    && ok == t.ok && end.names == t.after.names && end.audits.Keys == t.after.taken
    && Sent(w.log, end.log, a, t.sent)
  }

  /** Off and on again, around anything. */
  lemma SwitchesAreNoChanges(w: World, b: Handle, done: World, a: Handle, k: nat)
    requires b in w.names && w.names[b] in w.audits && b in done.names && done.names[b] in done.audits
    requires Sent(SetState(w, b, w.names[b], false).0.log, done.log, a, k)
    ensures var end := SetState(done, b, done.names[b], true).0;
            Sent(w.log, end.log, a, k) && end.names == done.names && end.audits.Keys == done.audits.Keys
  {
    ChangesSnoc(w.log, Switched(b, false), a);
    ChangesSnoc(done.log, Switched(b, true), a);
  }

  /** Switching an audit off takes it from those that are on. */
  lemma KnownInside(w: World, b: Handle)
    requires Faithful(w) && b in w.names
    ensures KnownOf(SetState(w, b, w.names[b], false).0) == Inside(b, KnownOf(w))
  {
    SwitchKeeps(w, b, false);
    var off := SetState(w, b, w.names[b], false).0;
    assert KnownOf(off).on == Inside(b, KnownOf(w)).on;
    assert off.audits.Keys == w.audits.Keys;
  }

  lemma ModifyIsTold(w: World, b: Handle, newName: string, renameOk: bool, a: Handle)
    requires Faithful(w) && b in w.names && !w.Enabled(b)
    ensures var (end, ok) := ModifyName(w, b, newName, renameOk);
            var k := KnownOf(w);
            IsTold(w, end, ok, Told(ok, One(b == a), if ok then Renamed(k, b, newName) else k), a)
            && (ok <==> Takes(k, b, newName, renameOk))
  {
    ChangesSnoc(w.log, Changed(b, false), a);
    var (end, ok) := ModifyName(w, b, newName, renameOk);
    if ok { assert end.audits.Keys == w.audits.Keys - {w.names[b]} + {newName}; }
  }

  lemma OpenedRenameIsTold(w: World, b: Handle, newName: string, renameOk: bool, a: Handle)
    requires Faithful(w) && b in w.names && w.Enabled(b)
    ensures var (done, ok) := ModifyName(SetState(w, b, w.names[b], false).0, b, newName, renameOk);
            var (end, back) := SetState(done, b, done.names[b], true);
            var k := KnownOf(w);
            && back && IsTold(w, end, ok, Told(ok, One(b == a), if ok then Renamed(k, b, newName) else k), a)
            && (ok <==> Takes(k, b, newName, renameOk))
  {
    var off := SetState(w, b, w.names[b], false).0;
    SwitchKeeps(w, b, false);
    KnownInside(w, b);
    ModifyKeeps(off, b, newName, renameOk);
    ModifyIsTold(off, b, newName, renameOk, a);
    SwitchesAreNoChanges(w, b, ModifyName(off, b, newName, renameOk).0, a, One(b == a));
  }

  /** What a change leaves, by how it begins. */
  lemma {:induction false} AlterRuns(b: Handle, readOk: bool, offOk: bool, statements: seq<bool>,
                                     window: Option<string>, w: World)
    requires b in w.names
    ensures var r := Run(Alter(b, readOk, offOk, statements), window, w);
            match Enter(w, window, b, readOk, offOk)
            case Failed => r.world == w && !r.ok
            case Opened =>
              var (done, ok) := AlterAll(SetState(w, b, w.names[b], false).0, b, statements);
              var (end, back) := SetState(done, b, w.names[b], true);
              r.world == end && r.ok == (ok && back)
            case _ => (r.world, r.ok) == AlterAll(w, b, statements)
  {
  }

  lemma {:induction false} AlterIsTold(w: World, b: Handle, statements: seq<bool>, a: Handle)
    requires Faithful(w) && b in w.names && !w.Enabled(b)
    ensures var (end, ok) := AlterAll(w, b, statements);
            IsTold(w, end, ok, Told(AllTrue(statements), if b == a then SentOf(statements) else 0, KnownOf(w)), a)
  {
    AlterSends(w, b, statements);
    CountOfChanges(w.log, b, SentOf(statements), a);
  }

  lemma {:induction false} OpenedAlterIsTold(w: World, b: Handle, statements: seq<bool>, a: Handle)
    requires Faithful(w) && b in w.names && w.Enabled(b)
    ensures var (done, ok) := AlterAll(SetState(w, b, w.names[b], false).0, b, statements);
            var (end, back) := SetState(done, b, w.names[b], true);
            && back
            && IsTold(w, end, ok, Told(AllTrue(statements), if b == a then SentOf(statements) else 0, KnownOf(w)), a)
  {
    var off := SetState(w, b, w.names[b], false).0;
    SwitchKeeps(w, b, false);
    AlterIsTold(off, b, statements, a);
    SwitchesAreNoChanges(w, b, AlterAll(off, b, statements).0, a, if b == a then SentOf(statements) else 0);
  }

  lemma {:induction false} AlterRunsAsTold(b: Handle, readOk: bool, offOk: bool, statements: seq<bool>,
                                           window: Option<string>, top: Option<Handle>, w: World, a: Handle)
    requires Faithful(w) && InSync(w, window, top) && b in w.names
    ensures RunsAsTold(Alter(b, readOk, offOk, statements), window, top, w, a)
  {
    AlterRuns(b, readOk, offOk, statements, window, w);
    NestedIsTop(w, window, top, b);
    match Enter(w, window, b, readOk, offOk) {
      case Failed =>
      case Opened => OpenedAlterIsTold(w, b, statements, a);
      case _ => AlterIsTold(w, b, statements, a);
    }
  }

  lemma RenameRunsAsTold(b: Handle, newName: string, readOk: bool, offOk: bool, renameOk: bool,
                         window: Option<string>, top: Option<Handle>, w: World, a: Handle)
    requires Faithful(w) && InSync(w, window, top) && b in w.names
    ensures RunsAsTold(Rename(b, newName, readOk, offOk, renameOk), window, top, w, a)
  {
    RenameRuns(b, newName, readOk, offOk, renameOk, window, w);
    NestedIsTop(w, window, top, b);
    match Enter(w, window, b, readOk, offOk) {
      case Failed =>
      case Opened => OpenedRenameIsTold(w, b, newName, renameOk, a);
      case _ => ModifyIsTold(w, b, newName, renameOk, a);
    }
  }

  /** A window that opened, around a body that ran as told. */
  lemma {:induction false} OpenedRunsAsTold(b: Handle, body: Program, frozen: set<Handle>, w: World, a: Handle)
    requires Faithful(w) && b in w.names && w.Enabled(b) && Handles(body) <= w.names.Keys
    requires Unshadowed(body, Some(b), frozen)
    requires RunsAsTold(body, Some(w.names[b]), Some(b), SetState(w, b, w.names[b], false).0, a)
    ensures var done := Run(body, Some(w.names[b]), SetState(w, b, w.names[b], false).0);
            var (end, back) := SetState(done.world, b, done.window.value, true);
            back && IsTold(w, end, done.ok, Tell(body, Some(b), Inside(b, KnownOf(w)), a), a)
  {
    var off := SetState(w, b, w.names[b], false).0;
    OffIsInSync(w, b);
    KnownInside(w, b);
    RunKeeps(body, Some(w.names[b]), Some(b), frozen, off);
    var done := Run(body, Some(w.names[b]), off);
    SwitchesAreNoChanges(w, b, done.world, a, Tell(body, Some(b), Inside(b, KnownOf(w)), a).sent);
  }

  /** What is on after a run that kept its promise is what was. */
  lemma KnownAfter(w: World, top: Option<Handle>, frozen: set<Handle>, mid: Outcome, t: Told, a: Handle)
    requires Kept(w, top, frozen, mid) && IsTold(w, mid.world, mid.ok, t, a) && t.after.on == KnownOf(w).on
    ensures KnownOf(mid.world) == t.after
  {
    assert KnownOf(mid.world).on == KnownOf(w).on;
  }

  lemma {:induction false} TellKeepsOn(p: Program, top: Option<Handle>, k: Known, a: Handle)
    requires Handles(p) <= k.names.Keys
    ensures Tell(p, top, k, a).after.on == k.on
  {
    match p
    case Then(first, second) =>
      TellKeepsOn(first, top, k, a);
      TellKeepsOn(second, top, Tell(first, top, k, a).after, a);
    case Attempt(body) => TellKeepsOn(body, top, k, a);
    case _ =>
  }

  /** Any program that renames no audit under a shadowing window: its error, the
      changes it sends of an audit, and the names it leaves are what its steps'
      fates tell. */
  lemma {:induction false} FatesDecide(p: Program, window: Option<string>, top: Option<Handle>,
                                       frozen: set<Handle>, w: World, a: Handle)
    requires Faithful(w) && InSync(w, window, top) && Handles(p) <= w.names.Keys
    requires Unshadowed(p, top, frozen)
    ensures RunsAsTold(p, window, top, w, a)
  {
    match p
    case Alter(b, readOk, offOk, statements) =>
      AlterRunsAsTold(b, readOk, offOk, statements, window, top, w, a);
    case Rename(b, newName, readOk, offOk, renameOk) =>
      RenameRunsAsTold(b, newName, readOk, offOk, renameOk, window, top, w, a);
    case Window(b, readOk, offOk, body) =>
      NestedIsTop(w, window, top, b);
      var frozen' := if top.Some? then frozen + {top.value} else frozen;
      match Enter(w, window, b, readOk, offOk) {
        case Failed =>
        case Nested =>
          FatesDecide(body, window, top, frozen, w, a);
          assert Inside(b, KnownOf(w)).on == KnownOf(w).on;
        case AlreadyOff =>
          FatesDecide(body, Some(w.names[b]), Some(b), frozen', w, a);
          assert Inside(b, KnownOf(w)).on == KnownOf(w).on;
        case Opened =>
          OffIsInSync(w, b);
          FatesDecide(body, Some(w.names[b]), Some(b), frozen', SetState(w, b, w.names[b], false).0, a);
          OpenedRunsAsTold(b, body, frozen', w, a);
      }
    case Then(first, second) =>
      RunKeeps(first, window, top, frozen, w);
      FatesDecide(first, window, top, frozen, w, a);
      TellKeepsOn(first, top, KnownOf(w), a);
      var mid := Run(first, window, w);
      KnownAfter(w, top, frozen, mid, Tell(first, top, KnownOf(w), a), a);
      if mid.ok { FatesDecide(second, mid.window, top, frozen, mid.world, a); }
    case Attempt(body) => FatesDecide(body, window, top, frozen, w, a);
    case Return(_) =>
  }

  /** The changes of an audit in a program, as it is written down. */
  function Asked(p: Program, a: Handle): nat {
    match p
    case Alter(b, _, _, statements) => if b == a then |statements| else 0
    case Rename(b, _, _, _, _) => One(b == a)
    case Window(_, _, _, body) => Asked(body, a)
    case Then(first, second) => Asked(first, a) + Asked(second, a)
    case Attempt(body) => Asked(body, a)
    case Return(_) => 0
  }

  /** Every statement went through, and every state was read that had to be. */
  predicate AllWentWell(p: Program, top: Option<Handle>) {
    match p
    case Alter(b, readOk, _, statements) => (readOk || top == Some(b)) && AllTrue(statements)
    case Rename(b, newName, readOk, _, renameOk) => (readOk || top == Some(b)) && renameOk && !Blank(newName)
    case Window(b, readOk, _, body) => (readOk || top == Some(b)) && AllWentWell(body, Some(b))
    case Then(first, second) => AllWentWell(first, top) && AllWentWell(second, top)
    case Attempt(body) => AllWentWell(body, top)
    case Return(ok) => ok
  }

  lemma {:induction false} StraightSendsAll(p: Program, top: Option<Handle>, k: Known, a: Handle)
    requires Handles(p) <= k.names.Keys && Straight(p) && Tell(p, top, k, a).ok
    ensures Tell(p, top, k, a).sent == Asked(p, a) && AllWentWell(p, top)
  {
    match p
    case Window(b, _, _, body) => StraightSendsAll(body, Some(b), Inside(b, k), a);
    case Then(first, second) =>
      StraightSendsAll(first, top, k, a);
      StraightSendsAll(second, top, Tell(first, top, k, a).after, a);
    case _ =>
  }

  /** A program that passes over no error and returned none has sent every change
      there is in it, and none of them failed. */
  lemma NoErrorMeansSent(p: Program, w: World, a: Handle)
    requires Faithful(w) && Handles(p) <= w.names.Keys && Unshadowed(p, None, {})
    requires Straight(p) && Run(p, None, w).ok
    ensures Sent(w.log, Run(p, None, w).world.log, a, Asked(p, a)) && AllWentWell(p, None)
  {
    FatesDecide(p, None, None, {}, w, a);
    StraightSendsAll(p, None, KnownOf(w), a);
  }

  // ---- exactly when a rename is lost ----

  /** A program inside a stack of windows, outermost first. */
  function Nest(stack: seq<Handle>, p: Program): Program {
    if stack == [] then p else Window(stack[0], true, true, Nest(stack[1..], p))
  }

  lemma {:induction false} HandlesOfNest(stack: seq<Handle>, p: Program)
    ensures Handles(Nest(stack, p)) == (set b | b in stack) + Handles(p)
  {
    if stack != [] { HandlesOfNest(stack[1..], p); }
  }

  predicate AllAre(stack: seq<Handle>, a: Handle) {
    forall i :: 0 <= i < |stack| ==> stack[i] == a
  }

  /** Another audit's window stands inside one of a's. */
  predicate Shadowed(stack: seq<Handle>, a: Handle) {
    stack != [] && if stack[0] == a then !AllAre(stack[1..], a) else Shadowed(stack[1..], a)
  }

  /** What a rename inside a stack of windows leaves. */
  ghost predicate RenamedUnder(stack: seq<Handle>, a: Handle, newName: string, top: Option<Handle>,
                               window: Option<string>, w: World, after: Outcome)
    requires a in w.names
  {
    var w' := after.world;
    && Faithful(w') && w'.names == w.names[a := newName]
    && (w.names[a] != newName ==> w.names[a] !in w'.audits)
    && (forall b :: b in w.names ==>
          w'.Enabled(b) == (w.Enabled(b) && !(b == a && Shadowed(stack, a))))
    && after.window == (if top == Some(a) && AllAre(stack, a) then Some(newName) else window)
  }

  lemma RenamedWhereOff(a: Handle, newName: string, window: Option<string>, top: Option<Handle>, w: World)
    requires Faithful(w) && InSync(w, window, top) && a in w.names && !w.Enabled(a)
    requires newName !in w.audits
    ensures var (done, ok) := ModifyName(w, a, newName, true);
            ok && RenamedUnder([], a, newName, top, window, w,
                               Outcome(done, if top == Some(a) then Some(newName) else window, ok))
  {
    ModifyKeeps(w, a, newName, true);
  }

  lemma RenamedWhereOn(a: Handle, newName: string, window: Option<string>, top: Option<Handle>, w: World)
    requires Faithful(w) && InSync(w, window, top) && a in w.names && w.Enabled(a)
    requires newName !in w.audits
    ensures var done := ModifyName(SetState(w, a, w.names[a], false).0, a, newName, true).0;
            var (end, back) := SetState(done, a, done.names[a], true);
            back && RenamedUnder([], a, newName, top, window, w, Outcome(end, window, true))
  {
    RenameOpened(a, newName, true, w);
  }

  lemma RenamedInnermost(a: Handle, newName: string, window: Option<string>, top: Option<Handle>, w: World)
    requires Faithful(w) && InSync(w, window, top) && a in w.names
    requires newName !in w.audits && !Blank(newName)
    ensures RenamedUnder([], a, newName, top, window, w, Run(Rename(a, newName, true, true, true), window, w))
  {
    NestedIsTop(w, window, top, a);
    if w.Enabled(a) {
      RenamedWhereOn(a, newName, window, top, w);
    } else {
      RenamedWhereOff(a, newName, window, top, w);
    }
  }

  /** Closing one opened window around a renamed interior: another audit's. */
  lemma {:induction false} RenamedThroughOther(g: Handle, rest: seq<Handle>, a: Handle, newName: string,
                            window: Option<string>, top: Option<Handle>, w: World, done: Outcome)
    requires Faithful(w) && InSync(w, window, top) && a in w.names && g in w.names && w.Enabled(g) && top != Some(g)
    requires newName !in w.audits && g != a
    requires RenamedUnder(rest, a, newName, Some(g), Some(w.names[g]), SetState(w, g, w.names[g], false).0, done)
    ensures done.window.Some?
    ensures var (restored, back) := SetState(done.world, g, done.window.value, true);
            RenamedUnder([g] + rest, a, newName, top, window, w, Outcome(restored, window, done.ok && back))
  {
    SwitchKeeps(w, g, false);
    assert ([g] + rest)[1..] == rest;
    assert OwnName(w, g, a);
    assert done.world.names[g] == w.names[g];
    SwitchKeeps(done.world, g, true);
  }

  /** Its own. */
  lemma {:induction false} RenamedThroughOwn(rest: seq<Handle>, a: Handle, newName: string,
                          window: Option<string>, top: Option<Handle>, w: World, done: Outcome)
    requires Faithful(w) && InSync(w, window, top) && a in w.names && w.Enabled(a) && top != Some(a)
    requires newName !in w.audits
    requires RenamedUnder(rest, a, newName, Some(a), Some(w.names[a]), SetState(w, a, w.names[a], false).0, done)
    ensures done.window.Some?
    ensures var (restored, back) := SetState(done.world, a, done.window.value, true);
            RenamedUnder([a] + rest, a, newName, top, window, w, Outcome(restored, window, done.ok && back))
  {
    SwitchKeeps(w, a, false);
    assert ([a] + rest)[1..] == rest;
    if AllAre(rest, a) {
      SwitchKeeps(done.world, a, true);
    } else {
      assert SetState(done.world, a, done.window.value, true).0 == done.world;
    }
  }

  lemma AllAreCons(g: Handle, rest: seq<Handle>, a: Handle)
    ensures AllAre([g] + rest, a) <==> g == a && AllAre(rest, a)
  {
    var stack := [g] + rest;
    assert stack[0] == g && forall i :: 0 <= i < |rest| ==> stack[i + 1] == rest[i];
    if AllAre(stack, a) {
      forall i | 0 <= i < |rest| ensures rest[i] == a { assert stack[i + 1] == a; }
    }
  }

  /** Or one that was open already. */
  lemma {:induction false} RenamedThroughNested(g: Handle, rest: seq<Handle>, a: Handle, newName: string,
                             window: Option<string>, top: Option<Handle>, w: World, after: Outcome)
    requires Faithful(w) && InSync(w, window, top) && a in w.names && top == Some(g)
    requires RenamedUnder(rest, a, newName, top, window, w, after)
    ensures RenamedUnder([g] + rest, a, newName, top, window, w, after)
  {
    assert ([g] + rest)[1..] == rest;
    AllAreCons(g, rest, a);
  }

  /** Or one on an audit that was off. */
  lemma {:induction false} RenamedThroughOff(g: Handle, rest: seq<Handle>, a: Handle, newName: string,
                          window: Option<string>, top: Option<Handle>, w: World, done: Outcome)
    requires Faithful(w) && InSync(w, window, top) && a in w.names && g in w.names && !w.Enabled(g) && top != Some(g)
    requires RenamedUnder(rest, a, newName, Some(g), Some(w.names[g]), w, done)
    ensures RenamedUnder([g] + rest, a, newName, top, window, w, Outcome(done.world, window, done.ok))
  {
    assert ([g] + rest)[1..] == rest && ([g] + rest)[0] == g;
  }

  lemma {:induction false} RenamedThroughStack(stack: seq<Handle>, a: Handle, newName: string,
                                               window: Option<string>, top: Option<Handle>, w: World)
    requires Faithful(w) && InSync(w, window, top) && a in w.names
    requires newName !in w.audits && !Blank(newName)
    requires forall b :: b in stack ==> b in w.names
    requires Handles(Nest(stack, Rename(a, newName, true, true, true))) <= w.names.Keys
    ensures RenamedUnder(stack, a, newName, top, window, w,
                         Run(Nest(stack, Rename(a, newName, true, true, true)), window, w))
  {
    if stack == [] {
      RenamedInnermost(a, newName, window, top, w);
    } else {
      var g, rest := stack[0], stack[1..];
      var inner := Nest(rest, Rename(a, newName, true, true, true));
      assert stack == [g] + rest;
      NestedIsTop(w, window, top, g);
      match Enter(w, window, g, true, true) {
        case Nested =>
          RenamedThroughStack(rest, a, newName, window, top, w);
          RenamedThroughNested(g, rest, a, newName, window, top, w, Run(inner, window, w));
        case AlreadyOff =>
          RenamedThroughStack(rest, a, newName, Some(w.names[g]), Some(g), w);
          RenamedThroughOff(g, rest, a, newName, window, top, w, Run(inner, Some(w.names[g]), w));
        case Opened =>
          OffIsInSync(w, g);
          var off := SetState(w, g, w.names[g], false).0;
          RenamedThroughStack(rest, a, newName, Some(w.names[g]), Some(g), off);
          RenamedThroughOpened(g, rest, a, newName, window, top, w, Run(inner, Some(w.names[g]), off));
      }
    }
  }

  /** A window that has just opened. */
  lemma OffIsInSync(w: World, g: Handle)
    requires Faithful(w) && g in w.names
    ensures var off := SetState(w, g, w.names[g], false).0;
            && Faithful(off) && off.names == w.names && off.audits.Keys == w.audits.Keys
            && InSync(off, Some(w.names[g]), Some(g))
  {
    SwitchKeeps(w, g, false);
  }

  lemma {:induction false} RenamedThroughOpened(g: Handle, rest: seq<Handle>, a: Handle, newName: string,
                             window: Option<string>, top: Option<Handle>, w: World, done: Outcome)
    requires Faithful(w) && InSync(w, window, top) && a in w.names && g in w.names && w.Enabled(g) && top != Some(g)
    requires newName !in w.audits
    requires RenamedUnder(rest, a, newName, Some(g), Some(w.names[g]), SetState(w, g, w.names[g], false).0, done)
    ensures done.window.Some?
    ensures var (restored, back) := SetState(done.world, g, done.window.value, true);
            RenamedUnder([g] + rest, a, newName, top, window, w, Outcome(restored, window, done.ok && back))
  {
    if g == a {
      RenamedThroughOwn(rest, a, newName, window, top, w, done);
    } else {
      RenamedThroughOther(g, rest, a, newName, window, top, w, done);
    }
  }

  /** A rename inside nested windows, nothing failing: the audit ends enabled
      under its new name exactly when no other audit's window stands between
      its own window and the rename. */
  lemma {:induction false} RenameSurvivesIff(stack: seq<Handle>, a: Handle, newName: string, w: World)
    requires Faithful(w) && a in w.names && w.Enabled(a)
    requires newName !in w.audits && !Blank(newName)
    requires forall b :: b in stack ==> b in w.names
    ensures Handles(Nest(stack, Rename(a, newName, true, true, true))) <= w.names.Keys
    ensures var after := Run(Nest(stack, Rename(a, newName, true, true, true)), None, w).world;
            && after.names == w.names[a := newName]
            && (after.IsOn(newName) <==> !Shadowed(stack, a))
  {
    HandlesOfNest(stack, Rename(a, newName, true, true, true));
    RenamedThroughStack(stack, a, newName, None, None, w);
  }

  /** A rename of "A" under a window on "B" within one on "A": it ends off. */
  lemma RenameIsLost()
    ensures var w := World(map["A" := true, "B" := true], map[1 := "A", 2 := "B"], []);
            var p := Nest([1, 2], Rename(1, "C", true, true, true));
            && Handles(p) <= w.names.Keys && w.Enabled(1)
            && var after := Run(p, None, w).world;
               after.names[1] == "C" && !after.IsOn("C")
  {
    var w := World(map["A" := true, "B" := true], map[1 := "A", 2 := "B"], []);
    assert Faithful(w);
    assert "C"[0] == 'C' && !Blank("C");
    assert [1, 2][1..][0] == 2;
    RenameSurvivesIff([1, 2], 1, "C", w);
  }

  // ---- the live client ----

  /** The name a window will re-enable under, shared with the writes inside it. */
  class WindowName {
    var name: string

    constructor (name: string)
      ensures this.name == name
    {
      this.name := name;
    }
  }

  ghost function Carried(window: WindowName?): Option<string>
    reads window
  {
    if window == null then None else Some(window.name)
  }

  /** The function a window runs: a write's own statements, or a caller's. */
  datatype Work = Statements(results: seq<bool>) | Caller(body: Program)

  function Enclosed(a: Handle, work: Work, readOk: bool, offOk: bool): Program {
    match work
    case Statements(results) => Alter(a, readOk, offOk, results)
    case Caller(body) => Window(a, readOk, offOk, body)
  }

  function Size(p: Program): nat {
    match p
    case Alter(_, _, _, _) => 1
    case Rename(_, _, _, _, _) => 1
    case Window(_, _, _, body) => 1 + Size(body)
    case Then(first, second) => 1 + Size(first) + Size(second)
    case Attempt(body) => 1 + Size(body)
    case Return(_) => 1
  }

  /** What the work leaves, run under a window. */
  function Done(a: Handle, work: Work, window: Option<string>, w: World): (r: Outcome)
    requires a in w.names && Handles(Enclosed(a, work, true, true)) <= w.names.Keys
    ensures r.world.names.Keys == w.names.Keys && (r.window.Some? <==> window.Some?)
  {
    match work
    case Statements(results) => var (done, ok) := AlterAll(w, a, results); Outcome(done, window, ok)
    case Caller(body) => Run(body, window, w)
  }

  /** A window around either kind of work. */
  lemma {:induction false} EnclosedRuns(a: Handle, work: Work, readOk: bool, offOk: bool, window: Option<string>,
                                        w: World)
    requires a in w.names && Handles(Enclosed(a, work, true, true)) <= w.names.Keys
    ensures Handles(Enclosed(a, work, readOk, offOk)) <= w.names.Keys
    ensures Run(Enclosed(a, work, readOk, offOk), window, w) ==
      match Enter(w, window, a, readOk, offOk)
      case Nested => Done(a, work, window, w)
      case Failed => Outcome(w, window, false)
      case AlreadyOff => Done(a, work, Some(w.names[a]), w).(window := window)
      case Opened =>
        var done := Done(a, work, Some(w.names[a]), SetState(w, a, w.names[a], false).0);
        var (restored, back) := SetState(done.world, a, done.window.value, true);
        Outcome(restored, window, done.ok && back)
  {
  }

  /** The audits of a server and the handles a client holds on them. */
  class AuditClient {
    var audits: map<string, bool>
    var names: map<Handle, string>
    var log: seq<Event>

    ghost function State(): World
      reads this
    {
      World(audits, names, log)
    }

    constructor (audits: map<string, bool>, names: map<Handle, string>)
      ensures State() == World(audits, names, [])
    {
      this.audits, this.names, log := audits, names, [];
    }

    /** The state is set by the name given, not always the handle's own. */
    method SetStateNamed(a: Handle, name: string, on: bool) returns (ok: bool)
      modifies this
      ensures (State(), ok) == SetState(old(State()), a, name, on)
    {
      if name !in audits { return false; }
      audits := audits[name := on];
      log := log + [Switched(a, on)];
      ok := true;
    }

    method AlterStatements(a: Handle, results: seq<bool>) returns (ok: bool)
      requires a in names
      modifies this
      ensures (State(), ok) == AlterAll(old(State()), a, results)
    {
      var i := 0;
      while i < |results|
        invariant i <= |results| && a in names
        invariant AlterAll(State(), a, results[i..]) == AlterAll(old(State()), a, results)
      {
        var on := names[a] in audits && audits[names[a]];
        log := log + [Changed(a, on)];
        if !results[i] || names[a] !in audits || on { return false; }
        i := i + 1;
      }
      ok := true;
    }

    method ModifyNameOf(a: Handle, newName: string, renameOk: bool) returns (ok: bool)
      requires a in names
      modifies this
      ensures (State(), ok) == ModifyName(old(State()), a, newName, renameOk)
    {
      var was := names[a];
      var on := was in audits && audits[was];
      log := log + [Changed(a, on)];
      if !renameOk || was !in audits || on || (newName in audits && newName != was) { return false; }
      audits := (audits - {was})[newName := audits[was]];
      names := names[a := newName];
      ok := true;
    }

    method Do(a: Handle, work: Work, window: WindowName?) returns (ok: bool)
      requires a in names && Handles(Enclosed(a, work, true, true)) <= names.Keys
      modifies this, window
      ensures Outcome(State(), Carried(window), ok) == Done(a, work, old(Carried(window)), old(State()))
      decreases Size(Enclosed(a, work, true, true)), 0
    {
      match work
      case Statements(results) => ok := AlterStatements(a, results);
      case Caller(body) => ok := Execute(body, window);
    }

    /** Runs the work with the audit disabled, re-enabling it only if this call
        disabled it, under the name the window then holds. */
    method WithAuditDisabled(a: Handle, work: Work, readOk: bool, offOk: bool, window: WindowName?)
      returns (ok: bool)
      requires a in names && Handles(Enclosed(a, work, true, true)) <= names.Keys
      modifies this, window
      ensures Outcome(State(), Carried(window), ok) ==
        Run(Enclosed(a, work, readOk, offOk), old(Carried(window)), old(State()))
      decreases Size(Enclosed(a, work, readOk, offOk)), 1
    {
      EnclosedRuns(a, work, readOk, offOk, Carried(window), State());
      if window != null && window.name == names[a] {
        ok := Do(a, work, window);
        return;
      }
      if !readOk || names[a] !in audits { return false; }
      var inner := new WindowName(names[a]);
      if !audits[names[a]] {
        ok := Do(a, work, inner);
        return;
      }
      if !offOk { return false; }
      var off := SetStateNamed(a, names[a], false);
      ok := Do(a, work, inner);
      var back := SetStateNamed(a, inner.name, true);
      ok := ok && back;
    }

    /** The one write that closes its own window: its name changes on the way. */
    method RenameAudit(a: Handle, newName: string, readOk: bool, offOk: bool, renameOk: bool, window: WindowName?)
      returns (ok: bool)
      requires a in names
      modifies this, window
      ensures Outcome(State(), Carried(window), ok) ==
        Run(Rename(a, newName, readOk, offOk, renameOk), old(Carried(window)), old(State()))
    {
      if Blank(newName) { return false; }
      var inWindow, restore := window != null && window.name == names[a], false;
      if !inWindow {
        if !readOk || names[a] !in audits { return false; }
        if audits[names[a]] {
          if !offOk { return false; }
          var off := SetStateNamed(a, names[a], false);
          restore := true;
        }
      }
      var was := names[a];
      ok := ModifyNameOf(a, newName, renameOk);
      if !ok {
        if restore { var back := SetStateNamed(a, was, true); }
        return;
      }
      if inWindow { window.name := newName; }
      if restore { ok := SetStateNamed(a, newName, true); }
    }

    method Execute(p: Program, window: WindowName?) returns (ok: bool)
      requires Handles(p) <= names.Keys
      modifies this, window
      ensures Outcome(State(), Carried(window), ok) == Run(p, old(Carried(window)), old(State()))
      decreases Size(p), 2
    {
      match p
      case Alter(a, readOk, offOk, statements) =>
        ok := WithAuditDisabled(a, Statements(statements), readOk, offOk, window);
      case Rename(a, newName, readOk, offOk, renameOk) =>
        ok := RenameAudit(a, newName, readOk, offOk, renameOk, window);
      case Window(a, readOk, offOk, body) =>
        ok := WithAuditDisabled(a, Caller(body), readOk, offOk, window);
      case Then(first, second) =>
        ok := Execute(first, window);
        if ok { ok := Execute(second, window); }
      case Attempt(body) =>
        ok := Execute(body, window);
        ok := true;
      case Return(r) => ok := r;
    }
  }
}
