/** The merge of the managed hooks and environment into the user's settings file. */
module Settings {
  import opened Text

  type Event = string

  const SESSION_START: Event := "SessionStart"

  /** A hook entry; `options` stands for its keys other than the command. */
  datatype Hook = Hook(command: string, options: nat)

  /** A matcher group; `options` stands for its keys other than the hooks. */
  datatype Group = Group(options: nat, hooks: seq<Hook>)

  /** A managed hook; `group` is the options of a group of its own. Its output is read
      when `needsStdout`, which decides the interpreter. */
  datatype Spec = Spec(mod: string, event: Event, needsStdout: bool, options: nat, group: nat)

  /** What the installation manages: its hooks, the names by which older hooks are
      recognised, the commands in front of a module for the two interpreters, the plain
      options of the shared group, and the environment. */
  datatype Manifest = Manifest(
    specs: seq<Spec>, legacy: set<string>, console: string, windowless: string, plain: nat, env: map<string, string>)

  /** `others` stands for the top-level keys that are not managed. */
  datatype Config = Config(hooks: map<Event, seq<Group>>, env: map<string, string>, others: nat)

  function Entry(m: Manifest, s: Spec): Hook {
    Hook((if s.needsStdout then m.console else m.windowless) + s.mod, s.options)
  }

  function Names(m: Manifest): set<string> {
    (set s | s in m.specs :: s.mod) + m.legacy
  }

  /** The command mentions one of the names. */
  predicate Managed(m: Manifest, h: Hook) {
    exists n :: n in Names(m) && Contains(h.command, n)
  }

  function Recognise(m: Manifest): Hook -> bool {
    h => Managed(m, h)
  }

  function Entries(m: Manifest, specs: seq<Spec>, e: Event): seq<Hook> {
    if specs == [] then []
    else
      var earlier, s := Entries(m, specs[..|specs| - 1], e), specs[|specs| - 1];
      if s.event == e then earlier + [Entry(m, s)] else earlier
  }

  function OwnGroups(m: Manifest, specs: seq<Spec>, e: Event): seq<Group> {
    if specs == [] then []
    else
      var earlier, s := OwnGroups(m, specs[..|specs| - 1], e), specs[|specs| - 1];
      if s.event == e then earlier + [Group(s.group, [Entry(m, s)])] else earlier
  }

  /** The groups to install: the hooks of a session start share one group, every
      other hook has its own. */
  function Canonical(m: Manifest, e: Event): seq<Group> {
    if e != SESSION_START then OwnGroups(m, m.specs, e)
    else if Entries(m, m.specs, e) == [] then []
    else [Group(m.plain, Entries(m, m.specs, e))]
  }

  /** The hooks that are not recognised as managed. */
  function Foreign(managed: Hook -> bool, hooks: seq<Hook>): seq<Hook> {
    if hooks == [] then []
    else
      var earlier, last := Foreign(managed, hooks[..|hooks| - 1]), hooks[|hooks| - 1];
      if managed(last) then earlier else earlier + [last]
  }

  /** The groups without managed hooks; a group left without hooks goes. */
  function Strip(managed: Hook -> bool, groups: seq<Group>): seq<Group> {
    if groups == [] then []
    else
      var earlier, last := Strip(managed, groups[..|groups| - 1]), groups[|groups| - 1];
      var kept := Foreign(managed, last.hooks);
      if kept == [] then earlier else earlier + [last.(hooks := kept)]
  }

  function GroupsAt(hooks: map<Event, seq<Group>>, e: Event): seq<Group> {
    if e in hooks then hooks[e] else []
  }

  function Events(m: Manifest): set<Event> {
    set s | s in m.specs :: s.event
  }

  function Merge(m: Manifest, c: Config): Config {
    Config(map e | e in c.hooks.Keys + Events(m) :: Strip(Recognise(m), GroupsAt(c.hooks, e)) + Canonical(m, e),
           c.env + m.env, c.others)
  }

  function Flat(groups: seq<Group>): seq<Hook> {
    if groups == [] then [] else Flat(groups[..|groups| - 1]) + groups[|groups| - 1].hooks
  }

  // ---- the program ----

  method KeepForeign(managed: Hook -> bool, hooks: seq<Hook>) returns (kept: seq<Hook>)
    ensures kept == Foreign(managed, hooks)
  {
    kept := [];
    for i := 0 to |hooks|
      invariant kept == Foreign(managed, hooks[..i])
    {
      assert hooks[..i + 1][..i] == hooks[..i];
      if !managed(hooks[i]) {
        kept := kept + [hooks[i]];
      }
    }
    assert hooks[..|hooks|] == hooks;
  }

  method StripGroups(managed: Hook -> bool, all: seq<Group>) returns (groups: seq<Group>)
    ensures groups == Strip(managed, all)
  {
    groups := [];
    for i := 0 to |all|
      invariant groups == Strip(managed, all[..i])
    {
      assert all[..i + 1][..i] == all[..i];
      var kept := KeepForeign(managed, all[i].hooks);
      if kept != [] {
        groups := groups + [all[i].(hooks := kept)];
      }
    }
    assert all[..|all|] == all;
  }

  method RemoveManaged(m: Manifest, all: map<Event, seq<Group>>) returns (hooks: map<Event, seq<Group>>)
    ensures hooks.Keys == all.Keys
    ensures forall e :: e in hooks ==> hooks[e] == Strip(Recognise(m), all[e])
  {
    hooks := all;
    var todo := all.Keys;
    while todo != {}
      invariant todo <= all.Keys == hooks.Keys
      invariant forall e :: e in hooks ==> hooks[e] == if e in todo then all[e] else Strip(Recognise(m), all[e])
      decreases |todo|
    {
      var e :| e in todo;
      var groups := StripGroups(Recognise(m), hooks[e]);
      hooks := hooks[e := groups];
      todo := todo - {e};
    }
  }

  /** The groups of `e` while the events in `todo` are still to be extended. */
  predicate IsExtended(hooks: map<Event, seq<Group>>, stripped: map<Event, seq<Group>>,
                       added: map<Event, seq<Group>>, todo: set<Event>, e: Event) {
    GroupsAt(hooks, e) ==
      if e in added && e !in todo then GroupsAt(stripped, e) + added[e] else GroupsAt(stripped, e)
  }

  method AddGroups(stripped: map<Event, seq<Group>>, added: map<Event, seq<Group>>)
    returns (hooks: map<Event, seq<Group>>)
    ensures hooks.Keys == stripped.Keys + added.Keys
    ensures forall e :: IsExtended(hooks, stripped, added, {}, e)
  {
    hooks := stripped;
    var todo := added.Keys;
    while todo != {}
      invariant todo <= added.Keys
      invariant forall e :: e in hooks <==> e in stripped || (e in added && e !in todo)
      invariant forall e :: IsExtended(hooks, stripped, added, todo, e)
      decreases |todo|
    {
      var e :| e in todo;
      ghost var before, left := hooks, todo;
      hooks := hooks[e := GroupsAt(hooks, e) + added[e]];
      todo := todo - {e};
      forall k ensures IsExtended(hooks, stripped, added, todo, k) {
        ExtendOne(before, stripped, added, left, e, k);
      }
    }
  }

  lemma ExtendOne(hooks: map<Event, seq<Group>>, stripped: map<Event, seq<Group>>, added: map<Event, seq<Group>>,
                  todo: set<Event>, e: Event, k: Event)
    requires e in todo && e in added && IsExtended(hooks, stripped, added, todo, e) && IsExtended(hooks, stripped, added, todo, k)
    ensures IsExtended(hooks[e := GroupsAt(hooks, e) + added[e]], stripped, added, todo - {e}, k)
  {
  }

  function CanonicalGroups(m: Manifest): map<Event, seq<Group>> {
    map e | e in Events(m) :: Canonical(m, e)
  }

  lemma NothingElse(m: Manifest, e: Event)
    ensures GroupsAt(CanonicalGroups(m), e) == Canonical(m, e)
  {
    if e !in Events(m) {
      forall s | s in m.specs ensures s.event != e {
        assert s.event in Events(m);
      }
      NothingElsewhere(m, m.specs, e);
    }
  }

  method MergeSettings(m: Manifest, c: Config) returns (r: Config)
    ensures r == Merge(m, c)
  {
    var stripped := RemoveManaged(m, c.hooks);
    var hooks := AddGroups(stripped, CanonicalGroups(m));
    r := c.(hooks := hooks, env := c.env + m.env);
    forall e | e in hooks ensures hooks[e] == Strip(Recognise(m), GroupsAt(c.hooks, e)) + Canonical(m, e) {
      NothingElse(m, e);
      assert IsExtended(hooks, stripped, CanonicalGroups(m), {}, e);
    }
    assert r.hooks == Merge(m, c).hooks;
  }

  lemma {:induction false} NothingElsewhere(m: Manifest, specs: seq<Spec>, e: Event)
    requires forall s :: s in specs ==> s.event != e
    ensures OwnGroups(m, specs, e) == [] && Entries(m, specs, e) == []
  {
    if specs != [] {
      assert specs[|specs| - 1] in specs;
      NothingElsewhere(m, specs[..|specs| - 1], e);
    }
  }

  // ---- what the merge promises ----

  lemma {:induction false} FoundBehind(x: string, p: string)
    ensures Contains(x + p, p)
  {
    if x == "" {
      assert x + p == p;
    } else {
      FoundBehind(x[1..], p);
      assert (x + p)[1..] == x[1..] + p;
    }
  }

  lemma EntryIsManaged(m: Manifest, s: Spec)
    requires s in m.specs
    ensures Recognise(m)(Entry(m, s))
  {
    FoundBehind(if s.needsStdout then m.console else m.windowless, s.mod);
    assert s.mod in Names(m);
  }

  lemma {:induction false} ForeignConcat(managed: Hook -> bool, a: seq<Hook>, b: seq<Hook>)
    ensures Foreign(managed, a + b) == Foreign(managed, a) + Foreign(managed, b)
  {
    if b == [] {
      assert a + b == a;
    } else {
      var front := b[..|b| - 1];
      assert (a + b)[..|a + b| - 1] == a + front;
      ForeignConcat(managed, a, front);
    }
  }

  lemma {:induction false} FlatConcat(a: seq<Group>, b: seq<Group>)
    ensures Flat(a + b) == Flat(a) + Flat(b)
  {
    if b == [] {
      assert a + b == a;
    } else {
      var front := b[..|b| - 1];
      assert (a + b)[..|a + b| - 1] == a + front;
      FlatConcat(a, front);
    }
  }

  lemma {:induction false} StripConcat(managed: Hook -> bool, a: seq<Group>, b: seq<Group>)
    ensures Strip(managed, a + b) == Strip(managed, a) + Strip(managed, b)
  {
    if b == [] {
      assert a + b == a;
    } else {
      var front := b[..|b| - 1];
      assert (a + b)[..|a + b| - 1] == a + front;
      StripConcat(managed, a, front);
    }
  }

  lemma Singles(managed: Hook -> bool, g: Group, h: Hook)
    ensures Flat([g]) == g.hooks
    ensures Foreign(managed, [h]) == if managed(h) then [] else [h]
    ensures Strip(managed, [g]) == if Foreign(managed, g.hooks) == [] then [] else [g.(hooks := Foreign(managed, g.hooks))]
  {
    assert [g][..0] == [] && [h][..0] == [];
  }

  /** Stripping keeps the foreign hooks, in order. */
  lemma {:induction false} StripIsForeign(managed: Hook -> bool, groups: seq<Group>)
    ensures Flat(Strip(managed, groups)) == Foreign(managed, Flat(groups))
  {
    if groups != [] {
      var front, last := groups[..|groups| - 1], groups[|groups| - 1];
      StripIsForeign(managed, front);
      ForeignConcat(managed, Flat(front), last.hooks);
      assert Foreign(managed, Flat(front)) + [] == Foreign(managed, Flat(front));
    }
  }

  lemma {:induction false} ForeignTwice(managed: Hook -> bool, hooks: seq<Hook>)
    ensures Foreign(managed, Foreign(managed, hooks)) == Foreign(managed, hooks)
  {
    if hooks != [] {
      var front, last := hooks[..|hooks| - 1], hooks[|hooks| - 1];
      ForeignTwice(managed, front);
      assert (Foreign(managed, front) + [last])[..|Foreign(managed, front)|] == Foreign(managed, front);
    }
  }

  lemma {:induction false} StripTwice(managed: Hook -> bool, groups: seq<Group>)
    ensures Strip(managed, Strip(managed, groups)) == Strip(managed, groups)
  {
    if groups != [] {
      var front, last := groups[..|groups| - 1], groups[|groups| - 1];
      StripTwice(managed, front);
      ForeignTwice(managed, last.hooks);
      var kept := last.(hooks := Foreign(managed, last.hooks));
      StripConcat(managed, Strip(managed, front), [kept]);
      assert Strip(managed, [kept]) == if kept.hooks == [] then [] else [kept] by {
        Singles(managed, kept, Hook("", 0));
      }
    }
  }

  /** The installed groups hold nothing but the managed hooks of their event, each
      once and in order. */
  lemma {:induction false} OwnGroupsHold(m: Manifest, specs: seq<Spec>, e: Event)
    ensures Flat(OwnGroups(m, specs, e)) == Entries(m, specs, e)
  {
    if specs != [] {
      var front, s := specs[..|specs| - 1], specs[|specs| - 1];
      OwnGroupsHold(m, front, e);
    }
  }

  /** The next merge recognises all of them. */
  lemma {:induction false} EntriesAreRecognised(m: Manifest, specs: seq<Spec>, e: Event)
    requires forall s :: s in specs ==> s in m.specs
    ensures Foreign(Recognise(m), Entries(m, specs, e)) == []
  {
    if specs != [] {
      var front, s := specs[..|specs| - 1], specs[|specs| - 1];
      assert s in specs;
      EntriesAreRecognised(m, front, e);
      EntryIsManaged(m, s);
      if s.event == e {
        Singles(Recognise(m), Group(0, []), Entry(m, s));
        ForeignConcat(Recognise(m), Entries(m, front, e), [Entry(m, s)]);
      }
    }
  }

  lemma {:induction false} OwnGroupsAreRecognised(m: Manifest, specs: seq<Spec>, e: Event)
    requires forall s :: s in specs ==> s in m.specs
    ensures Strip(Recognise(m), OwnGroups(m, specs, e)) == []
  {
    if specs != [] {
      var front, s := specs[..|specs| - 1], specs[|specs| - 1];
      assert s in specs;
      OwnGroupsAreRecognised(m, front, e);
      EntryIsManaged(m, s);
      if s.event == e {
        var own := Group(s.group, [Entry(m, s)]);
        Singles(Recognise(m), own, Entry(m, s));
        StripConcat(Recognise(m), OwnGroups(m, front, e), [own]);
      }
    }
  }

  lemma CanonicalHolds(m: Manifest, e: Event)
    ensures Flat(Canonical(m, e)) == Entries(m, m.specs, e)
    ensures Strip(Recognise(m), Canonical(m, e)) == []
  {
    OwnGroupsHold(m, m.specs, e);
    OwnGroupsAreRecognised(m, m.specs, e);
    EntriesAreRecognised(m, m.specs, e);
    Singles(Recognise(m), Group(m.plain, Entries(m, m.specs, e)), Hook("", 0));
  }

  /** After a merge every event has the user's own hooks, in their order, followed by
      exactly the managed hooks of the event. */
  lemma HooksAfterMerge(m: Manifest, c: Config, e: Event)
    ensures Flat(GroupsAt(Merge(m, c).hooks, e)) ==
      Foreign(Recognise(m), Flat(GroupsAt(c.hooks, e))) + Entries(m, m.specs, e)
  {
    CanonicalHolds(m, e);
    StripIsForeign(Recognise(m), GroupsAt(c.hooks, e));
    FlatConcat(Strip(Recognise(m), GroupsAt(c.hooks, e)), Canonical(m, e));
    if e !in c.hooks && e !in Events(m) {
      assert forall s :: s in m.specs ==> s.event in Events(m);
      NothingElsewhere(m, m.specs, e);
    }
  }

  lemma StripOfMerged(m: Manifest, groups: seq<Group>, e: Event)
    ensures var own := Strip(Recognise(m), groups); Strip(Recognise(m), own + Canonical(m, e)) == own
  {
    StripConcat(Recognise(m), Strip(Recognise(m), groups), Canonical(m, e));
    StripTwice(Recognise(m), groups);
    CanonicalHolds(m, e);
  }

  /** A second merge changes nothing. */
  lemma MergeIsIdempotent(m: Manifest, c: Config)
    ensures Merge(m, Merge(m, c)) == Merge(m, c)
  {
    var one := Merge(m, c);
    var two := Merge(m, one);
    assert one.hooks.Keys == two.hooks.Keys;
    forall e | e in one.hooks ensures one.hooks[e] == two.hooks[e] {
      StripOfMerged(m, GroupsAt(c.hooks, e), e);
    }
    assert one.hooks == two.hooks;
  }

  predicate Untouched(managed: Hook -> bool, g: Group) {
    g.hooks != [] && Foreign(managed, g.hooks) == g.hooks
  }

  lemma {:induction false} StripShrinks(managed: Hook -> bool, groups: seq<Group>)
    ensures |Strip(managed, groups)| <= |groups|
  {
    if groups != [] {
      StripShrinks(managed, groups[..|groups| - 1]);
    }
  }

  lemma SameLast<T>(a: seq<T>, x: T, b: seq<T>, y: T)
    ensures a + [x] == b + [y] <==> a == b && x == y
  {
    if a + [x] == b + [y] {
      assert (a + [x])[..|a|] == a && (b + [y])[..|b|] == b && (a + [x])[|a|] == x;
    }
  }

  /** The user's groups of an event stay as they are exactly when each holds a hook
      and none holds a managed one; a group without hooks is dropped. */
  lemma {:induction false} GroupsUntouchedIff(managed: Hook -> bool, groups: seq<Group>)
    ensures Strip(managed, groups) == groups <==> forall g :: g in groups ==> Untouched(managed, g)
  {
    if groups != [] {
      var front, last := groups[..|groups| - 1], groups[|groups| - 1];
      GroupsUntouchedIff(managed, front);
      StripShrinks(managed, front);
      assert groups == front + [last];
      assert (forall g :: g in groups ==> Untouched(managed, g)) <==>
        (forall g :: g in front ==> Untouched(managed, g)) && Untouched(managed, last);
      SameLast(Strip(managed, front), last.(hooks := Foreign(managed, last.hooks)), front, last);
    }
  }

  /** A group without hooks is dropped, although it never held a managed one. */
  lemma EmptyGroupIsDropped(managed: Hook -> bool, options: nat)
    ensures Strip(managed, [Group(options, [])]) == [] && !Untouched(managed, Group(options, []))
  {
    Singles(managed, Group(options, []), Hook("", 0));
  }

  /** The user's other environment keys stay; the managed ones get their value. */
  lemma EnvAfterMerge(m: Manifest, c: Config, k: string)
    ensures k in Merge(m, c).env <==> k in c.env || k in m.env
    ensures k in Merge(m, c).env ==> Merge(m, c).env[k] == if k in m.env then m.env[k] else c.env[k]
  {
  }

  // ---- which hooks are there after a merge ----

  /** The hook that is installed for `s`: it runs under the console interpreter exactly
      when its output is read, and under the windowless one otherwise. */
  predicate Runs(m: Manifest, s: Spec, h: Hook) {
    && h.options == s.options
    && (s.needsStdout ==> h.command == m.console + s.mod)
    && (!s.needsStdout ==> h.command == m.windowless + s.mod)
  }

  predicate Installed(m: Manifest, specs: seq<Spec>, e: Event, h: Hook) {
    exists s :: s in specs && s.event == e && Runs(m, s, h)
  }

  /** The command mentions neither a managed module nor a hook of an older version. */
  predicate IsUsers(m: Manifest, h: Hook) {
    (forall s :: s in m.specs ==> !Contains(h.command, s.mod)) && forall n :: n in m.legacy ==> !Contains(h.command, n)
  }

  lemma UsersIff(m: Manifest, h: Hook)
    ensures IsUsers(m, h) <==> !Recognise(m)(h)
  {
    forall s | s in m.specs ensures s.mod in Names(m) {
    }
  }

  lemma {:induction false} ForeignIff(managed: Hook -> bool, hooks: seq<Hook>, h: Hook)
    ensures h in Foreign(managed, hooks) <==> h in hooks && !managed(h)
  {
    if hooks != [] {
      ForeignIff(managed, hooks[..|hooks| - 1], h);
      assert hooks == hooks[..|hooks| - 1] + [hooks[|hooks| - 1]];
    }
  }

  lemma {:induction false} EntriesIff(m: Manifest, specs: seq<Spec>, e: Event, h: Hook)
    ensures h in Entries(m, specs, e) <==> Installed(m, specs, e, h)
  {
    if specs != [] {
      EntriesIff(m, specs[..|specs| - 1], e, h);
      assert specs == specs[..|specs| - 1] + [specs[|specs| - 1]];
      assert Runs(m, specs[|specs| - 1], h) <==> h == Entry(m, specs[|specs| - 1]);
    }
  }

  /** After a merge a hook is there exactly when it was the user's own, or it is one that
      is installed for the event. */
  lemma HookIsThereIff(m: Manifest, c: Config, e: Event, h: Hook)
    ensures h in Flat(GroupsAt(Merge(m, c).hooks, e)) <==>
      (h in Flat(GroupsAt(c.hooks, e)) && IsUsers(m, h)) || Installed(m, m.specs, e, h)
  {
    HooksAfterMerge(m, c, e);
    ForeignIff(Recognise(m), Flat(GroupsAt(c.hooks, e)), h);
    EntriesIff(m, m.specs, e, h);
    UsersIff(m, h);
  }

  /** A group with the hook's own matcher and nothing else in it. */
  predicate OwnGroup(m: Manifest, s: Spec, g: Group) {
    g.options == s.group && |g.hooks| == 1 && Runs(m, s, g.hooks[0])
  }

  lemma {:induction false} OwnGroupsIff(m: Manifest, specs: seq<Spec>, e: Event, g: Group)
    ensures g in OwnGroups(m, specs, e) <==> exists s :: s in specs && s.event == e && OwnGroup(m, s, g)
  {
    if specs != [] {
      var front, last := specs[..|specs| - 1], specs[|specs| - 1];
      OwnGroupsIff(m, front, e, g);
      assert specs == front + [last];
      assert OwnGroup(m, last, g) <==> g == Group(last.group, [Entry(m, last)]) by {
        if OwnGroup(m, last, g) {
          assert g.hooks == [g.hooks[0]] && g.hooks[0] == Entry(m, last);
        }
      }
    }
  }

  /** The hooks of a session start share one plain group, when there are any; every other
      hook has a group of its own that carries its own matcher. */
  lemma InstalledGroups(m: Manifest, e: Event, g: Group)
    ensures e != SESSION_START ==>
      (g in Canonical(m, e) <==> exists s :: s in m.specs && s.event == e && OwnGroup(m, s, g))
    ensures e == SESSION_START ==>
      && |Canonical(m, e)| <= 1
      && (g in Canonical(m, e) ==>
            g.options == m.plain && g.hooks != [] && forall h :: h in g.hooks <==> Installed(m, m.specs, e, h))
      && ((exists h :: Installed(m, m.specs, e, h)) ==> |Canonical(m, e)| == 1)
  {
    OwnGroupsIff(m, m.specs, e, g);
    forall h ensures h in Entries(m, m.specs, e) <==> Installed(m, m.specs, e, h) {
      EntriesIff(m, m.specs, e, h);
    }
  }
}
