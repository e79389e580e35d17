/** `MasterLimiter`: the master mixer's limiter, four levels each confined to a closed
    range by its setter, and the messages it sends to the engine. The engine is an
    append-only log of sends; what `restore` queries from it is a parameter. */
module Limiters {
  import opened Wrappers

  datatype Param = Pre | Attack | Release | Post

  /** The upper end of each level's range; every range starts at 0. */
  function Upper(p: Param): real {
    match p
    case Pre => 8.0
    case Attack => 0.1
    case Release => 0.5
    case Post => 2.0
  }

  predicate InRange(p: Param, v: real) {
    0.0 <= v <= Upper(p)
  }

  /** A `LIMITER_*` message carrying a level to the engine. */
  datatype Send = Send(param: Param, value: real)

  /** The four levels. */
  datatype Levels = Levels(pre: real, attack: real, release: real, post: real)

  function Level(l: Levels, p: Param): real {
    match p
    case Pre => l.pre
    case Attack => l.attack
    case Release => l.release
    case Post => l.post
  }

  function WithLevel(l: Levels, p: Param, v: real): (r: Levels)
    ensures Level(r, p) == v
    ensures forall q :: q != p ==> Level(r, q) == Level(l, q)
  {
    match p
    case Pre => l.(pre := v)
    case Attack => l.(attack := v)
    case Release => l.(release := v)
    case Post => l.(post := v)
  }

  /** Every level within its range. */
  predicate AllInRange(l: Levels) {
    InRange(Pre, l.pre) && InRange(Attack, l.attack) && InRange(Release, l.release) && InRange(Post, l.post)
  }

  /** The defaults: pre 1, attack 0.02, release 0.25, post 1. */
  const Defaults: Levels := Levels(1.0, 0.02, 0.25, 1.0)

  lemma DefaultsInRange()
    ensures AllInRange(Defaults)
  {
  }

  /** What a setter does to the levels: the current value is ignored, a value out of
      range is refused, any other is taken. */
  function Setting(l: Levels, p: Param, v: real): (r: Result<Levels>)
    ensures r.Err? <==> Level(l, p) != v && !InRange(p, v)
    ensures r.Err? ==> r.failure == IllegalArgument
    ensures r.Ok? ==> r.value == WithLevel(l, p, v) || (r.value == l && Level(l, p) == v)
  {
    if Level(l, p) == v then Ok(l)
    else if !InRange(p, v) then Err(IllegalArgument)
    else Ok(WithLevel(l, p, v))
  }

  /** What a setter sends: the new value, only when it is taken. */
  function SettingSends(l: Levels, p: Param, v: real): (r: seq<Send>)
    ensures r == [] || r == [Send(p, v)]
    ensures r != [] <==> Level(l, p) != v && InRange(p, v)
  {
    if Level(l, p) == v || !InRange(p, v) then [] else [Send(p, v)]
  }

  /** A setter never takes a level out of its range. */
  lemma SettingKeepsRange(l: Levels, p: Param, v: real)
    requires AllInRange(l)
    ensures Setting(l, p, v).Ok? ==> AllInRange(Setting(l, p, v).value)
    ensures Setting(l, p, v).Ok? ==> Level(Setting(l, p, v).value, p) == v
  {
  }

  /** The order in which `restore` and `update` visit the levels. */
  const RestoreOrder: seq<Param> := [Attack, Post, Pre, Release]

  /** The result of putting each queried level through its setter, in order, stopping
      at the first refusal: the levels reached, the sends made, and the outcome. */
  datatype Replayed = Replayed(levels: Levels, sends: seq<Send>, outcome: Outcome)

  function Replay(l: Levels, ps: seq<Param>, queried: Levels): Replayed
    decreases |ps|
  {
    if ps == [] then Replayed(l, [], Pass)
    else
      var v := Level(queried, ps[0]);
      match Setting(l, ps[0], v)
      case Err(f) => Replayed(l, [], Fail(f))
      case Ok(next) =>
        var rest := Replay(next, ps[1..], queried);
        Replayed(rest.levels, SettingSends(l, ps[0], v) + rest.sends, rest.outcome)
  }

  /** One step of the replay: the first level's setter, then the rest. */
  lemma ReplayFirst(l: Levels, ps: seq<Param>, queried: Levels)
    requires ps != []
    ensures Setting(l, ps[0], Level(queried, ps[0])).Err? ==>
      Replay(l, ps, queried) == Replayed(l, [], Fail(IllegalArgument))
    ensures Setting(l, ps[0], Level(queried, ps[0])).Ok? ==>
      var next := Setting(l, ps[0], Level(queried, ps[0])).value;
      Replay(l, ps, queried).levels == Replay(next, ps[1..], queried).levels &&
      Replay(l, ps, queried).sends == SettingSends(l, ps[0], Level(queried, ps[0])) + Replay(next, ps[1..], queried).sends &&
      Replay(l, ps, queried).outcome == Replay(next, ps[1..], queried).outcome
  {
  }

  /** A restore from levels that are all in range succeeds and ends holding exactly
      the queried levels, so that the next `update` sends them back. */
  lemma RestoreRecoversQueried(l: Levels, queried: Levels)
    requires AllInRange(queried)
    ensures Replay(l, RestoreOrder, queried).outcome == Pass
    ensures Replay(l, RestoreOrder, queried).levels == queried
  {
    assert RestoreOrder[1..] == [Post, Pre, Release];
    assert RestoreOrder[1..][1..] == [Pre, Release];
    assert RestoreOrder[1..][1..][1..] == [Release];
  }

  /** A restore that meets an out-of-range level fails, whatever the stored levels. */
  lemma RestoreRefusesOutOfRange(l: Levels, queried: Levels)
    requires AllInRange(l)
    requires !InRange(Attack, queried.attack)
    ensures Replay(l, RestoreOrder, queried) == Replayed(l, [], Fail(IllegalArgument))
  {
  }

  /** The sends of `update`: every stored level, in the restore order. */
  function UpdateSends(l: Levels): (r: seq<Send>)
    ensures |r| == |RestoreOrder|
    ensures forall i :: 0 <= i < |r| ==> r[i] == Send(RestoreOrder[i], Level(l, RestoreOrder[i]))
  {
    [Send(Attack, l.attack), Send(Post, l.post), Send(Pre, l.pre), Send(Release, l.release)]
  }

  class MasterLimiter {
    var pre: real
    var attack: real
    var release: real
    var post: real
    var sent: seq<Send>

    function Current(): Levels
      reads this
    {
      Levels(pre, attack, release, post)
    }

    ghost predicate Valid()
      reads this
    {
      AllInRange(Current())
    }

    constructor ()
      ensures Valid()
      ensures Current() == Defaults && sent == []
    {
      pre, attack, release, post := 1.0, 0.02, 0.25, 1.0;
      sent := [];
      DefaultsInRange();
    }

    /** The setter of one level: the current value is ignored, a value out of range is
        refused before anything changes, any other is stored and sent. */
    method SetLevel(p: Param, value: real) returns (o: Outcome)
      requires Valid()
      modifies this
      ensures Valid()
      ensures o.Fail? <==> Setting(old(Current()), p, value).Err?
      ensures o.Fail? ==> o.failure == IllegalArgument && Current() == old(Current())
      ensures o.Pass? ==> Current() == Setting(old(Current()), p, value).value && Level(Current(), p) == value
      ensures sent == old(sent) + SettingSends(old(Current()), p, value)
    {
      if Level(Current(), p) == value {
        return Pass;
      }
      if value < 0.0 || value > Upper(p) {
        return Fail(IllegalArgument);
      }
      match p {
        case Pre => pre := value;
        case Attack => attack := value;
        case Release => release := value;
        case Post => post := value;
      }
      sent := sent + [Send(p, value)];
      o := Pass;
    }

    /** `setPre`: 0..8. */
    method SetPre(value: real) returns (o: Outcome)
      requires Valid()
      modifies this
      ensures Valid()
      ensures o.Fail? <==> value != old(pre) && (value < 0.0 || value > 8.0)
      ensures o.Pass? ==> pre == value
      ensures attack == old(attack) && release == old(release) && post == old(post)
      ensures o.Fail? ==> o.failure == IllegalArgument && pre == old(pre) && sent == old(sent)
      ensures sent == old(sent) + SettingSends(old(Current()), Pre, value)
    {
      o := SetLevel(Pre, value);
    }

    /** `setAttack`: 0..0.1. */
    method SetAttack(value: real) returns (o: Outcome)
      requires Valid()
      modifies this
      ensures Valid()
      ensures o.Fail? <==> value != old(attack) && (value < 0.0 || value > 0.1)
      ensures o.Pass? ==> attack == value
      ensures pre == old(pre) && release == old(release) && post == old(post)
      ensures o.Fail? ==> o.failure == IllegalArgument && attack == old(attack) && sent == old(sent)
      ensures sent == old(sent) + SettingSends(old(Current()), Attack, value)
    {
      o := SetLevel(Attack, value);
    }

    /** `setRelease`: 0..0.5. */
    method SetRelease(value: real) returns (o: Outcome)
      requires Valid()
      modifies this
      ensures Valid()
      ensures o.Fail? <==> value != old(release) && (value < 0.0 || value > 0.5)
      ensures o.Pass? ==> release == value
      ensures pre == old(pre) && attack == old(attack) && post == old(post)
      ensures o.Fail? ==> o.failure == IllegalArgument && release == old(release) && sent == old(sent)
      ensures sent == old(sent) + SettingSends(old(Current()), Release, value)
    {
      o := SetLevel(Release, value);
    }

    /** `setPost`: 0..2. */
    method SetPost(value: real) returns (o: Outcome)
      requires Valid()
      modifies this
      ensures Valid()
      ensures o.Fail? <==> value != old(post) && (value < 0.0 || value > 2.0)
      ensures o.Pass? ==> post == value
      ensures pre == old(pre) && attack == old(attack) && release == old(release)
      ensures o.Fail? ==> o.failure == IllegalArgument && post == old(post) && sent == old(sent)
      ensures sent == old(sent) + SettingSends(old(Current()), Post, value)
    {
      o := SetLevel(Post, value);
    }

    /** `restore`: each level queried from the engine goes through its setter, in the
        order attack, post, pre, release; the first refusal ends the restore. */
    method Restore(queried: Levels) returns (o: Outcome)
      requires Valid()
      modifies this
      ensures Valid()
      ensures Current() == Replay(old(Current()), RestoreOrder, queried).levels
      ensures sent == old(sent) + Replay(old(Current()), RestoreOrder, queried).sends
      ensures o == Replay(old(Current()), RestoreOrder, queried).outcome
    {
      ghost var whole := Replay(Current(), RestoreOrder, queried);
      o := RestoreStep(queried, 0, whole);
      if o.Fail? {
        return;
      }
      o := RestoreStep(queried, 1, whole);
      if o.Fail? {
        return;
      }
      o := RestoreStep(queried, 2, whole);
      if o.Fail? {
        return;
      }
      o := RestoreStep(queried, 3, whole);
    }

    /** The `k`-th setter call of `restore`, with what is left of the whole restore
        before and after it. */
    method RestoreStep(queried: Levels, k: nat, ghost whole: Replayed) returns (o: Outcome)
      requires k < |RestoreOrder| && Valid()
      requires whole.levels == Replay(Current(), RestoreOrder[k..], queried).levels
      requires whole.outcome == Replay(Current(), RestoreOrder[k..], queried).outcome
      modifies this
      ensures Valid()
      ensures o.Fail? ==> o == whole.outcome && Current() == whole.levels && sent == old(sent)
      ensures o.Fail? ==> Replay(old(Current()), RestoreOrder[k..], queried).sends == []
      ensures o.Pass? ==>
        && whole.levels == Replay(Current(), RestoreOrder[k + 1..], queried).levels
        && whole.outcome == Replay(Current(), RestoreOrder[k + 1..], queried).outcome
        && sent + Replay(Current(), RestoreOrder[k + 1..], queried).sends == old(sent) + Replay(old(Current()), RestoreOrder[k..], queried).sends
    {
      var p := RestoreOrder[k];
      assert RestoreOrder[k..][1..] == RestoreOrder[k + 1..];
      ReplayFirst(Current(), RestoreOrder[k..], queried);
      o := SetLevel(p, Level(queried, p));
    }

    /** `update`: sends every stored level, in the restore order. */
    method Update()
      modifies this
      ensures sent == old(sent) + UpdateSends(Current())
      ensures Current() == old(Current())
    {
      sent := sent + [Send(Attack, attack)];
      sent := sent + [Send(Post, post)];
      sent := sent + [Send(Pre, pre)];
      sent := sent + [Send(Release, release)];
    }
  }
}
