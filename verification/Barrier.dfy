/** The rendezvous of executor cores on a multi-core operation, one shared-memory access at
    a time. All rounds here have the same leading core; any core may be a follower of any
    round, each once, and rounds follow one another on the leader. */
module Barrier {
  import opened Common

  /** One multi-core operation: who takes part, and the term each core may have executed. */
  datatype Round = Round(mask: set<nat>, bound: nat -> nat)

  datatype Config = Config(cores: nat, lead: nat, rounds: nat -> Round)

  datatype LeaderPc =
    | Idle
    | Odd(r: nat)
    | Named(r: nat)
    | Hopeful(r: nat)
    | Cleared0(r: nat)
    | Cleared1(r: nat)
    | Even(r: nat)
    | Wait(r: nat, failed: set<nat>)
    | Check(r: nat, i: nat, failed: set<nat>)
    | Fail(r: nat, failed: set<nat>)
    | Out(r: nat, failed: set<nat>)
    | Excuse(r: nat, failed: set<nat>)
    | Last(r: nat, failed: set<nat>)

  datatype FollowerPc =
    | Away
    | Try(r: nat)
    | ReadStable(r: nat)
    | Compare(r: nat, stable: nat)
    | Reread(r: nat, stable: nat)
    | Join(r: nat)
    | Held(r: nat)
    | ReadSuccess(r: nat)
    | Leave(r: nat, success: bool)

  /** The leader's shared words, the executed term of each core, where each thread is, and
      what has happened: rounds begun, attempts made, joins, and results returned. */
  datatype World = World(
    stable: nat, nonce: Option<nat>, success: bool, b0: set<nat>, b1: set<nat>,
    exec: seq<nat>,
    leader: LeaderPc,
    followers: seq<FollowerPc>,
    next: nat,
    tried: set<(nat, nat)>,
    joins: set<(nat, nat)>,
    returned: map<(nat, nat), bool>,
    results: map<nat, bool>,
    joined: set<nat>, left: set<nat>, flagged: set<nat>)

  ghost predicate Proper(g: Config) {
    && g.lead < g.cores
    && forall r: nat :: g.lead in g.rounds(r).mask && forall c <- g.rounds(r).mask :: c < g.cores
  }

  function Init(g: Config): World {
    World(0, None, false, {}, {}, seq(g.cores, _ => 0), Idle, seq(g.cores, _ => Away), 0, {}, {}, map[], map[],
          {}, {}, {})
  }

  datatype Step =
    | Leader
    | Enter(f: nat, r: nat)
    | Follower(f: nat, same: bool)
    | Raise(c: nat, term: nat)

  /** What the code allows. A core raises its executed term only between operations, and
      takes part in a round once. A comparison of nonces means something only while the
      stable word is as it was read. */
  ghost predicate Possible(g: Config, w: World, step: Step) {
    && |w.exec| == |w.followers| == g.cores
    && match step
       case Leader => true
       case Enter(f, r) =>
         f < g.cores && f != g.lead && f in g.rounds(r).mask && w.followers[f].Away? && (f, r) !in w.tried
       case Follower(f, same) =>
         && f < g.cores && !w.followers[f].Away?
         && (w.followers[f].Compare? && w.followers[f].stable == w.stable ==>
             same == (w.nonce == Some(w.followers[f].r)))
       case Raise(c, term) =>
         c < g.cores && w.exec[c] <= term && if c == g.lead then w.leader.Idle? else w.followers[c].Away?
  }

  /** A follower comes with an executed term within its bound: its operation was accepted
      in the very term of the bound, and a core executes its log in order. */
  ghost predicate Enabled(g: Config, w: World, step: Step) {
    Possible(g, w, step) && (step.Enter? ==> w.exec[step.f] <= g.rounds(step.r).bound(step.f))
  }

  /** The leader is setting up a round. */
  predicate Preparing(pc: LeaderPc) {
    pc.Odd? || pc.Named? || pc.Hopeful? || pc.Cleared0? || pc.Cleared1?
  }

  /** A round is on: followers may join and leave. */
  predicate Running(pc: LeaderPc) {
    !pc.Idle? && !Preparing(pc)
  }

  ghost function LeaderNext(g: Config, w: World): (w': World)
    requires |w.exec| == g.cores
    ensures w'.exec == w.exec && w'.followers == w.followers
    ensures Running(w.leader) ==>
              && w'.stable == w.stable && w'.nonce == w.nonce && w'.next == w.next
              && (w'.leader.Idle? || (Running(w'.leader) && w'.leader.r == w.leader.r))
  {
    match w.leader
    case Idle =>
      w.(leader := Odd(w.next), next := w.next + 1, stable := w.stable + 1, joined := {}, left := {}, flagged := {})
    case Odd(r) => w.(leader := Named(r), nonce := Some(r))
    case Named(r) => w.(leader := Hopeful(r), success := true)
    case Hopeful(r) => w.(leader := Cleared0(r), b0 := {})
    case Cleared0(r) => w.(leader := Cleared1(r), b1 := {})
    case Cleared1(r) => w.(leader := Even(r), stable := w.stable + 1)
    case Even(r) => w.(leader := Wait(r, {}), b0 := w.b0 + {g.lead})
    case Wait(r, failed) =>
      if w.b0 == g.rounds(r).mask then w.(leader := Out(r, failed)) else w.(leader := Check(r, 0, {}))
    case Check(r, i, failed) =>
      if i < g.cores then
        w.(leader := Check(r, i + 1, if g.rounds(r).bound(i) < w.exec[i] then failed + {i} else failed))
      else
        var bad := failed * g.rounds(r).mask;
        if bad == {} then w.(leader := Wait(r, {})) else w.(leader := Fail(r, bad), success := false)
    case Fail(r, failed) => w.(leader := Wait(r, failed), b0 := w.b0 + failed, flagged := w.flagged + failed)
    case Out(r, failed) => w.(leader := Excuse(r, failed), b1 := w.b1 + {g.lead})
    case Excuse(r, failed) => w.(leader := Last(r, failed), b1 := w.b1 + failed)
    case Last(r, failed) =>
      if w.b1 == g.rounds(r).mask then w.(leader := Idle, results := w.results[r := failed == {}]) else w
  }

  ghost function FollowerNext(g: Config, w: World, f: nat, same: bool): (w': World)
    requires f < |w.followers| == |w.exec| == g.cores && g.lead < g.cores
    ensures w'.leader == w.leader && w'.stable == w.stable && w'.nonce == w.nonce && w'.success == w.success
    ensures w'.next == w.next && w'.exec == w.exec && w'.tried == w.tried && w'.results == w.results
            && w'.flagged == w.flagged
    ensures |w'.followers| == |w.followers| && w.joins <= w'.joins && w.joined <= w'.joined
    ensures forall f2 {:trigger w'.followers[f2]} :: 0 <= f2 < |w.followers| && f2 != f ==>
              w'.followers[f2] == w.followers[f2]
    ensures w'.returned == w.returned ||
            (&& !w.followers[f].Away?
             && (|| w'.returned == w.returned[(f, w.followers[f].r) := true]
                 || w'.returned == w.returned[(f, w.followers[f].r) := false]))
  {
    match w.followers[f]
    case Away => w
    case Try(r) =>
      if w.exec[g.lead] > g.rounds(r).bound(g.lead)
      then w.(followers := w.followers[f := Away], returned := w.returned[(f, r) := false])
      else w.(followers := w.followers[f := ReadStable(r)])
    case ReadStable(r) =>
      w.(followers := w.followers[f := if w.stable % 2 == 1 then Try(r) else Compare(r, w.stable)])
    case Compare(r, s) => w.(followers := w.followers[f := if same then Reread(r, s) else Try(r)])
    case Reread(r, s) => w.(followers := w.followers[f := if s == w.stable then Join(r) else Try(r)])
    case Join(r) =>
      w.(followers := w.followers[f := Held(r)], b0 := w.b0 + {f}, joined := w.joined + {f},
         joins := w.joins + {(f, r)})
    case Held(r) => if w.b0 == g.rounds(r).mask then w.(followers := w.followers[f := ReadSuccess(r)]) else w
    case ReadSuccess(r) => w.(followers := w.followers[f := Leave(r, w.success)])
    case Leave(r, v) =>
      w.(followers := w.followers[f := Away], b1 := w.b1 + {f}, left := w.left + {f},
         returned := w.returned[(f, r) := v])
  }

  ghost function Next(g: Config, w: World, step: Step): World
    requires Proper(g) && Possible(g, w, step)
  {
    match step
    case Leader => LeaderNext(g, w)
    case Enter(f, r) => w.(followers := w.followers[f := Try(r)], tried := w.tried + {(f, r)})
    case Follower(f, same) => FollowerNext(g, w, f, same)
    case Raise(c, term) => w.(exec := w.exec[c := term])
  }

  ghost predicate IsRun(g: Config, ws: seq<World>, steps: seq<Step>) {
    && Proper(g) && |ws| == |steps| + 1 && ws[0] == Init(g)
    && forall i {:trigger steps[i]} :: 0 <= i < |steps| ==>
        Enabled(g, ws[i], steps[i]) && ws[i + 1] == Next(g, ws[i], steps[i])
  }
}
