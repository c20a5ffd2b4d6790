/** Renaming, defaulting, deactivating and deleting project configurations. */
module Configurations {
  import opened Options

  datatype Config = Config(name: string, isDefault: bool, active: bool, system: bool, deleted: bool)

  datatype Patch = Patch(name: Option<string>, isDefault: Option<bool>, active: Option<bool>)

  /** `pins` lists the configuration each live project runs on. */
  datatype State = State(configs: map<nat, Config>, pins: seq<nat>)

  datatype Reply = Ok | NotFound | KeepDefault | DefaultStaysActive | LastActive | BuiltIn | Pinned

  datatype Operation =
    | Clone(id: nat, base: Option<nat>, name: string)
    | Change(id: nat, patch: Patch)
    | Delete(id: nat)
    | StartProject(id: nat)
    | EndProject(k: nat)

  predicate Live(s: State, id: nat) { id in s.configs && !s.configs[id].deleted }

  predicate IsDefault(s: State, id: nat) { Live(s, id) && s.configs[id].isDefault }

  function ActiveOnes(s: State): set<nat> {
    set id | id in s.configs && Live(s, id) && s.configs[id].active
  }

  /** Becoming the default also activates. */
  function Activity(p: Patch): Option<bool> {
    if p.isDefault == Some(true) then Some(true) else p.active
  }

  function ReplyToChange(s: State, id: nat, p: Patch): Reply {
    if !Live(s, id) then NotFound
    else if p.isDefault == Some(false) && s.configs[id].isDefault then KeepDefault
    else if Activity(p) == Some(false) && s.configs[id].isDefault then DefaultStaysActive
    else if Activity(p) == Some(false) && |ActiveOnes(s)| <= 1 then LastActive
    else Ok
  }

  function ReplyTo(s: State, op: Operation): Reply {
    match op
    case Clone(id, base, _) =>
      if id in s.configs || (base.Some? && !Live(s, base.value)) then NotFound else Ok
    case Change(id, p) => ReplyToChange(s, id, p)
    case Delete(id) =>
      if !Live(s, id) then NotFound
      else if s.configs[id].system then BuiltIn
      else if s.configs[id].isDefault then KeepDefault
      else if id in s.pins then Pinned
      else Ok
    case StartProject(id) => if Live(s, id) then Ok else NotFound
    case EndProject(k) => if k < |s.pins| then Ok else NotFound
  }

  function Demoted(configs: map<nat, Config>, id: nat): map<nat, Config> {
    map c | c in configs :: if c != id then configs[c].(isDefault := false) else configs[c]
  }

  function Changed(c: Config, p: Patch): Config {
    Config(if p.name.Some? then p.name.value else c.name,
           if p.isDefault.Some? then p.isDefault.value else c.isDefault,
           if Activity(p).Some? then Activity(p).value else c.active,
           c.system, c.deleted)
  }

  function Effect(s: State, op: Operation): State
    requires ReplyTo(s, op) == Ok
  {
    match op
    case Clone(id, _, name) => s.(configs := s.configs[id := Config(name, false, true, false, false)])
    case Change(id, p) =>
      var configs := if p.isDefault == Some(true) then Demoted(s.configs, id) else s.configs;
      s.(configs := configs[id := Changed(s.configs[id], p)])
    case Delete(id) => s.(configs := s.configs[id := s.configs[id].(deleted := true)])
    case StartProject(id) => s.(pins := s.pins + [id])
    case EndProject(k) => s.(pins := s.pins[..k] + s.pins[k + 1..])
  }

  function Served(s: State, op: Operation): State {
    if ReplyTo(s, op) == Ok then Effect(s, op) else s
  }

  function Run(s: State, ops: seq<Operation>): State {
    if ops == [] then s else Served(Run(s, ops[..|ops| - 1]), ops[|ops| - 1])
  }

  // ---- what every run keeps -------------------------------------------------------------------------------------

  /** One default, and it is in use. */
  ghost predicate DefaultIs(s: State, d: nat) {
    && IsDefault(s, d) && s.configs[d].active
    && forall id :: id in s.configs && s.configs[id].isDefault ==> id == d
  }

  ghost predicate Sound(s: State) {
    && (exists d :: DefaultIs(s, d))
    && (forall k :: 0 <= k < |s.pins| ==> Live(s, s.pins[k]))
    && (forall id :: id in s.configs && s.configs[id].system ==> !s.configs[id].deleted)
  }

  lemma ChangeKeeps(s: State, id: nat, p: Patch)
    requires Sound(s) && ReplyTo(s, Change(id, p)) == Ok
    ensures Sound(Effect(s, Change(id, p)))
  {
    var t := Effect(s, Change(id, p));
    var d :| DefaultIs(s, d);
    assert DefaultIs(t, if p.isDefault == Some(true) then id else d);
    forall k | 0 <= k < |t.pins|
      ensures Live(t, t.pins[k])
    {
      assert Live(s, s.pins[k]);
    }
  }

  lemma DeleteKeeps(s: State, id: nat)
    requires Sound(s) && ReplyTo(s, Delete(id)) == Ok
    ensures Sound(Effect(s, Delete(id)))
  {
    var t := Effect(s, Delete(id));
    var d :| DefaultIs(s, d);
    assert DefaultIs(t, d);
    forall k | 0 <= k < |t.pins|
      ensures Live(t, t.pins[k])
    {
      assert Live(s, s.pins[k]) && s.pins[k] in s.pins;
    }
  }

  lemma OtherKeeps(s: State, op: Operation)
    requires Sound(s) && !op.Change? && !op.Delete? && ReplyTo(s, op) == Ok
    ensures Sound(Effect(s, op))
  {
    var t := Effect(s, op);
    var d :| DefaultIs(s, d);
    assert DefaultIs(t, d);
    forall k | 0 <= k < |t.pins|
      ensures Live(t, t.pins[k])
    {
      assert op.EndProject? || k < |s.pins| ==> t.pins[k] in s.pins;
      assert forall j :: 0 <= j < |s.pins| ==> Live(t, s.pins[j]);
    }
  }

  lemma {:induction false} RunKeeps(s: State, ops: seq<Operation>)
    requires Sound(s)
    ensures Sound(Run(s, ops))
  {
    if ops != [] {
      RunKeeps(s, ops[..|ops| - 1]);
      var before, op := Run(s, ops[..|ops| - 1]), ops[|ops| - 1];
      if ReplyTo(before, op) == Ok {
        if op.Change? {
          ChangeKeeps(before, op.id, op.patch);
        } else if op.Delete? {
          DeleteKeeps(before, op.id);
        } else {
          OtherKeeps(before, op);
        }
      }
    }
  }

  /** In every run there is exactly one default configuration, it is active, and no project is stranded. */
  lemma AlwaysOneDefault(s: State, ops: seq<Operation>)
    requires Sound(s)
    ensures var t := Run(s, ops);
            && (exists d :: DefaultIs(t, d)) && ActiveOnes(t) != {}
            && (forall a, b :: IsDefault(t, a) && IsDefault(t, b) ==> a == b)
            && (forall k :: 0 <= k < |t.pins| ==> Live(t, t.pins[k]))
  {
    RunKeeps(s, ops);
    var d :| DefaultIs(Run(s, ops), d);
    assert d in ActiveOnes(Run(s, ops));
  }

  lemma OnlyMember(s: set<nat>, d: nat)
    requires d in s
    ensures |s| <= 1 <==> s == {d}
  {
    if s != {d} {
      assert |s - {d}| > 0 by {
        assert exists x :: x in s && x != d;
        assert s - {d} != {};
      }
    }
  }

  /** The last-active guard never protects anything: it only refuses to deactivate what is inactive already. */
  lemma LastActiveGuardIsIdle(s: State, id: nat, p: Patch)
    requires Sound(s)
    ensures ReplyTo(s, Change(id, p)) == LastActive <==>
      && Live(s, id) && Activity(p) == Some(false) && !s.configs[id].isDefault && !s.configs[id].active
      && forall c :: c in ActiveOnes(s) ==> s.configs[c].isDefault
  {
    var d :| DefaultIs(s, d);
    OnlyMember(ActiveOnes(s), d);
    if ReplyTo(s, Change(id, p)) == LastActive {
      assert id !in ActiveOnes(s);
    }
  }

  // ---- a change, spelled out --------------------------------------------------------------------------------------

  predicate InUse(configs: map<nat, Config>, id: nat) {
    id in configs && !configs[id].deleted && configs[id].active
  }

  /** When a change is refused, and why. */
  ghost predicate AnswersChange(configs: map<nat, Config>, id: nat, p: Patch, reply: Reply) {
    var live := id in configs && !configs[id].deleted;
    && (reply == NotFound <==> !live)
    && (reply == KeepDefault <==> live && configs[id].isDefault && p.isDefault == Some(false))
    && (reply == DefaultStaysActive <==> live && configs[id].isDefault && p.isDefault == None && p.active == Some(false))
    && (reply == LastActive <==>
          && live && !configs[id].isDefault && p.isDefault != Some(true) && p.active == Some(false)
          && forall a, b :: InUse(configs, a) && InUse(configs, b) ==> a == b)
    && reply != BuiltIn && reply != Pinned
  }

  /** What a change leaves: a new default is in use and the only one, and nothing else is touched. */
  ghost predicate LeavesChange(was: map<nat, Config>, id: nat, p: Patch, now: map<nat, Config>) {
    && id in was && now.Keys == was.Keys
    && (forall c :: c in was && c != id ==>
          now[c] == if p.isDefault == Some(true) then was[c].(isDefault := false) else was[c])
    && now[id].system == was[id].system && now[id].deleted == was[id].deleted
    && (match p.name case Some(name) => now[id].name == name case None => now[id].name == was[id].name)
    && (match p.isDefault
        case Some(isDefault) => now[id].isDefault == isDefault
        case None => now[id].isDefault == was[id].isDefault)
    && (if p.isDefault == Some(true) then now[id].active
        else match p.active
             case Some(active) => now[id].active == active
             case None => now[id].active == was[id].active)
  }

  lemma AtMostOne(s: set<nat>)
    ensures |s| <= 1 <==> forall a, b :: a in s && b in s ==> a == b
  {
    if a :| a in s {
      OnlyMember(s, a);
      if forall x, y :: x in s && y in s ==> x == y {
        assert s == {a};
      }
    }
  }

  lemma ChangeAnswered(s: State, id: nat, p: Patch)
    ensures AnswersChange(s.configs, id, p, ReplyTo(s, Change(id, p)))
    ensures ReplyTo(s, Change(id, p)) == Ok ==> LeavesChange(s.configs, id, p, Served(s, Change(id, p)).configs)
  {
    var active := ActiveOnes(s);
    AtMostOne(active);
    assert forall c :: c in active <==> InUse(s.configs, c);
    match p.isDefault
    case None =>
    case Some(isDefault) => assert isDefault == true || isDefault == false;
  }

  /** A clone starts in use, and is neither the default nor built in; projects come and go on live configurations. */
  lemma OthersLeave(s: State, op: Operation)
    ensures op.Clone? ==>
      if op.id !in s.configs && (op.base.Some? ==> op.base.value in s.configs && !s.configs[op.base.value].deleted)
      then Served(s, op) == State(s.configs[op.id := Config(op.name, false, true, false, false)], s.pins)
      else Served(s, op) == s
    ensures op.StartProject? ==>
      if op.id in s.configs && !s.configs[op.id].deleted then Served(s, op) == State(s.configs, s.pins + [op.id])
      else Served(s, op) == s
    ensures op.EndProject? ==>
      if op.k < |s.pins| then Served(s, op) == State(s.configs, s.pins[..op.k] + s.pins[op.k + 1..])
      else Served(s, op) == s
  {
  }

  // ---- the collection, updated in place ---------------------------------------------------------------------------

  class Registry {
    var configs: map<nat, Config>
    var pins: seq<nat>

    constructor (configs: map<nat, Config>)
      ensures Now() == State(configs, [])
    {
      this.configs, pins := configs, [];
    }

    function Now(): State
      reads this
    {
      State(configs, pins)
    }

    method PatchConfiguration(id: nat, p: Patch) returns (reply: Reply)
      modifies `configs
      ensures reply == ReplyTo(old(Now()), Change(id, p)) && Now() == Served(old(Now()), Change(id, p))
      ensures AnswersChange(old(configs), id, p, reply)
      ensures if reply == Ok then LeavesChange(old(configs), id, p, configs) else configs == old(configs)
    {
      ChangeAnswered(Now(), id, p);
      if id !in configs || configs[id].deleted {
        return NotFound;
      }
      var config, activity := configs[id], p.active;
      var demote := p.isDefault == Some(true);
      if demote {
        activity := Some(true);
      } else if p.isDefault == Some(false) && config.isDefault {
        return KeepDefault;
      }
      if activity == Some(false) {
        if config.isDefault {
          return DefaultStaysActive;
        }
        var active := ActiveOnes(Now());
        if |active| <= 1 {
          return LastActive;
        }
      }
      if demote {
        configs := map c | c in configs :: if c != id then configs[c].(isDefault := false) else configs[c];
      }
      if p.name.Some? {
        config := config.(name := p.name.value);
      }
      if p.isDefault.Some? {
        config := config.(isDefault := p.isDefault.value);
      }
      if activity.Some? {
        config := config.(active := activity.value);
      }
      configs := configs[id := config];
      reply := Ok;
    }

    method DeleteConfiguration(id: nat) returns (reply: Reply)
      modifies `configs
      ensures reply == ReplyTo(old(Now()), Delete(id)) && Now() == Served(old(Now()), Delete(id))
      ensures reply == NotFound <==> id !in old(configs) || old(configs)[id].deleted
      ensures reply == Ok <==> id in old(configs) && !old(configs)[id].deleted && !old(configs)[id].system
                               && !old(configs)[id].isDefault && id !in pins
      ensures reply == Pinned ==> id in pins
      ensures if reply == Ok then configs == old(configs)[id := old(configs)[id].(deleted := true)]
              else configs == old(configs)
    {
      if id !in configs || configs[id].deleted {
        return NotFound;
      }
      if configs[id].system {
        return BuiltIn;
      }
      if configs[id].isDefault {
        return KeepDefault;
      }
      if id in pins {
        return Pinned;
      }
      configs := configs[id := configs[id].(deleted := true)];
      reply := Ok;
    }
  }
}
