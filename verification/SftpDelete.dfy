/**
 `deleteFolderRecursive` of server/utils/sftpHelpers.js: a folder is read, its entries are deleted
 concurrently, and the folder is removed when the last entry has reported back.  Replies arrive one
 at a time, in any order; other clients may delete things meanwhile.
 */
module SftpDelete {
  type Path = seq<string>

  datatype Kind = File | Dir

  /** A reply: done, `code === 2` (no such file), or another error. */
  datatype Outcome = Ok | NoSuchFile | Fails

  datatype Request = Readdir(path: Path) | Unlink(path: Path) | Rmdir(path: Path)

  /** The closure of one call whose folder was not empty: the counter and the error flag. */
  datatype Frame = Frame(kids: set<Path>, remaining: int, hasError: bool)

  datatype State = State(
    root: Path,
    fs: map<Path, Kind>,            // what exists on the server
    reading: set<Path>,             // unanswered requests
    unlinking: set<Path>,
    removing: set<Path>,
    frames: map<Path, Frame>,
    calls: map<Path, seq<bool>>)    // callback invocations of each call, true for success

  function Parent(p: Path): Path
    requires p != []
  {
    p[..|p| - 1]
  }

  function Kids(fs: map<Path, Kind>, p: Path): set<Path> {
    set c | c in fs && c != [] && Parent(c) == p
  }

  function Calls(st: State, p: Path): seq<bool> {
    if p in st.calls then st.calls[p] else []
  }

  function Start(root: Path, fs: map<Path, Kind>): State {
    State(root, fs, {root}, {}, {}, map[], map[])
  }

  /** `callback(err)` of the call for `p`: the caller's callback at the root, else the parent's `onDeleted`. */
  function Callback(st: State, p: Path, ok: bool): State
    decreases |p|, 1
  {
    var called := st.(calls := st.calls[p := Calls(st, p) + [ok]]);
    if p == st.root || p == [] then called else OnDeleted(called, Parent(p), ok)
  }

  function OnDeleted(st: State, q: Path, ok: bool): State
    decreases |q|, 2
  {
    if q !in st.frames || st.frames[q].hasError then st
    else if !ok then Callback(st.(frames := st.frames[q := st.frames[q].(hasError := true)]), q, false)
    else
      var left := st.frames[q].remaining - 1;
      var counted := st.(frames := st.frames[q := st.frames[q].(remaining := left)]);
      if left == 0 then counted.(removing := st.removing + {q}) else counted
  }

  function Outstanding(st: State, r: Request): bool {
    match r
    case Readdir(p) => p in st.reading
    case Unlink(p) => p in st.unlinking
    case Rmdir(p) => p in st.removing
  }

  /** What the server may answer, given what exists: an error is always possible. */
  predicate Honest(fs: map<Path, Kind>, r: Request, o: Outcome) {
    match o
    case Fails => true
    case NoSuchFile => r.path !in fs
    case Ok =>
      r.path in fs &&
      match r
      case Readdir(p) => fs[p] == Dir
      case Unlink(p) => fs[p] == File
      case Rmdir(p) => fs[p] == Dir && Kids(fs, p) == {}
  }

  /** The reply to a request reaches the client. */
  function Deliver(st: State, r: Request, o: Outcome): State {
    match r
    case Unlink(p) =>
      Callback(st.(unlinking := st.unlinking - {p}, fs := if o == Ok then st.fs - {p} else st.fs), p, o != Fails)
    case Rmdir(p) =>
      Callback(st.(removing := st.removing - {p}, fs := if o == Ok then st.fs - {p} else st.fs), p, o != Fails)
    case Readdir(p) =>
      var read := st.(reading := st.reading - {p});
      if o != Ok then Callback(read, p, o != Fails)
      else
        var kids := Kids(st.fs, p);
        if kids == {} then read.(removing := st.removing + {p})
        else
          read.(frames := st.frames[p := Frame(kids, |kids|, false)],
                reading := read.reading + (set c | c in kids && st.fs[c] == Dir),
                unlinking := st.unlinking + (set c | c in kids && st.fs[c] == File))
  }

  datatype Event = Reply(request: Request, outcome: Outcome) | Vanish(path: Path)

  predicate Enabled(st: State, e: Event) {
    match e
    case Reply(r, o) => Outstanding(st, r) && Honest(st.fs, r, o)
    case Vanish(p) => p in st.fs && Kids(st.fs, p) == {}
  }

  function Step(st: State, e: Event): State {
    match e
    case Reply(r, o) => Deliver(st, r, o)
    case Vanish(p) => st.(fs := st.fs - {p})
  }

  // ---------------------------------------------------------------- invariant

  /** Folders on the server are closed upwards. */
  ghost predicate Tree(fs: map<Path, Kind>) {
    forall p :: p in fs && p != [] ==> Parent(p) in fs && fs[Parent(p)] == Dir
  }

  predicate Under(root: Path, p: Path) {
    |root| <= |p| && p[..|root|] == root
  }

  /** A call was made for `p`: the first one, or from a folder that listed `p`. */
  predicate Started(st: State, p: Path) {
    p == st.root || (p != [] && Parent(p) in st.frames && p in st.frames[Parent(p)].kids)
  }

  predicate WaitingForKids(st: State, p: Path) {
    p in st.frames && !st.frames[p].hasError && st.frames[p].remaining > 0
  }

  /** Kids of `q` that have not yet been counted; `hole` has called back but its parent does not know yet. */
  function OpenKids(st: State, q: Path, hole: set<Path>): set<Path>
    requires q in st.frames
  {
    set c | c in st.frames[q].kids && (Calls(st, c) == [] || c in hole)
  }

  /** Each call is in exactly one of its five stages; a path without a call is in none. */
  ghost predicate OneStage(st: State, p: Path) {
    && |Calls(st, p)| <= 1
    && (p in st.reading ==> p !in st.frames && p !in st.unlinking && p !in st.removing && Calls(st, p) == [])
    && (p in st.unlinking ==> p !in st.frames && p !in st.removing && Calls(st, p) == [])
    && (p in st.removing ==> !WaitingForKids(st, p) && Calls(st, p) == [])
    && (WaitingForKids(st, p) ==> Calls(st, p) == [])
    && (Started(st, p) <==>
          p in st.reading || p in st.unlinking || p in st.removing || WaitingForKids(st, p) || Calls(st, p) != [])
    && (p in st.frames ==> Started(st, p))
  }

  ghost predicate FrameOk(st: State, q: Path, hole: set<Path>)
    requires q in st.frames
  {
    var f := st.frames[q];
    && Under(st.root, q)
    && (forall c :: c in f.kids ==> c != [] && Parent(c) == q)
    && (f.hasError ==> Calls(st, q) == [false])
    && (!f.hasError ==>
          && f.remaining == |OpenKids(st, q, hole)|
          && forall c :: c in f.kids && c !in OpenKids(st, q, hole) ==> Calls(st, c) == [true])
  }

  ghost predicate Inv(st: State, hole: set<Path>) {
    && Tree(st.fs)
    && (forall p :: OneStage(st, p))
    && (forall q :: q in st.frames ==> FrameOk(st, q, hole))
    && (forall p :: Calls(st, p) == [true] ==> p !in st.fs)
  }

  /** Just before the callback of `p`: its call has left every stage and has not called back. */
  ghost predicate Between(st: State, p: Path) {
    && Tree(st.fs)
    && Started(st, p) && Calls(st, p) == []
    && p !in st.reading && p !in st.unlinking && p !in st.removing && !WaitingForKids(st, p)
    && (forall x :: x != p ==> OneStage(st, x))
    && (forall q :: q in st.frames && q != p ==> FrameOk(st, q, {}))
    && (p in st.frames ==> Under(st.root, p) && st.frames[p].hasError == (st.frames[p].remaining > 0)
                           && (forall c :: c in st.frames[p].kids ==> c != [] && Parent(c) == p)
                           && (!st.frames[p].hasError ==> FrameOk(st, p, {})))
    && (forall x :: Calls(st, x) == [true] ==> x !in st.fs)
  }

  lemma CalledInv(st: State, p: Path, ok: bool)
    requires Between(st, p) && (ok ==> p !in st.fs)
    requires p in st.frames && st.frames[p].hasError ==> !ok
    ensures Inv(st.(calls := st.calls[p := [ok]]), {p})
  {
    var called := st.(calls := st.calls[p := [ok]]);
    forall x
      ensures OneStage(called, x)
    {
      assert x != p ==> OneStage(st, x);
    }
    forall q | q in called.frames
      ensures FrameOk(called, q, {p})
    {
      if q != p || !st.frames[q].hasError {
        assert FrameOk(st, q, {});
        assert OpenKids(called, q, {p}) == OpenKids(st, q, {});
      }
    }
  }

  /** The parent has been told about `p`. */
  lemma ToldInv(st: State, p: Path)
    requires Inv(st, {p})
    requires p == st.root || (p != [] && Parent(p) in st.frames && st.frames[Parent(p)].hasError)
    ensures Inv(st, {})
  {
    forall q | q in st.frames
      ensures FrameOk(st, q, {})
    {
      assert FrameOk(st, q, {p});
      if p in st.frames[q].kids {
        assert Parent(p) == q;
      } else {
        assert OpenKids(st, q, {p}) == OpenKids(st, q, {});
      }
    }
  }

  lemma CountedInv(st: State, p: Path)
    requires Inv(st, {p}) && p != st.root && Started(st, p) && Calls(st, p) == [true]
    requires p != [] && Parent(p) in st.frames && !st.frames[Parent(p)].hasError
    ensures Inv(OnDeleted(st, Parent(p), true), {})
  {
    var q := Parent(p);
    var f := st.frames[q];
    assert FrameOk(st, q, {p});
    assert p in OpenKids(st, q, {p});
    assert f.remaining > 0;
    var after := OnDeleted(st, q, true);
    assert OpenKids(after, q, {}) == OpenKids(st, q, {p}) - {p};
    assert OneStage(st, q) && WaitingForKids(st, q);
    forall x
      ensures OneStage(after, x)
    {
      assert OneStage(st, x);
      assert Started(after, x) == Started(st, x);
    }
    forall r | r in after.frames
      ensures FrameOk(after, r, {})
    {
      assert FrameOk(st, r, {p});
      if r != q {
        assert p !in st.frames[r].kids;
        assert OpenKids(after, r, {}) == OpenKids(st, r, {p});
      }
    }
  }

  function WithError(st: State, q: Path): State
    requires q in st.frames
  {
    st.(frames := st.frames[q := st.frames[q].(hasError := true)])
  }

  lemma FailedStage(st: State, p: Path, x: Path)
    requires Inv(st, {p}) && p != [] && Parent(p) in st.frames && x != Parent(p)
    ensures OneStage(WithError(st, Parent(p)), x)
  {
    assert OneStage(st, x);
    assert Started(WithError(st, Parent(p)), x) == Started(st, x);
  }

  lemma FailedFrame(st: State, p: Path, r: Path)
    requires Inv(st, {p}) && p != [] && Parent(p) in st.frames && r != Parent(p) && r in st.frames
    ensures FrameOk(WithError(st, Parent(p)), r, {})
  {
    assert FrameOk(st, r, {p});
    assert p !in st.frames[r].kids;
    assert OpenKids(WithError(st, Parent(p)), r, {}) == OpenKids(st, r, {p});
  }

  /** The first failure turns the parent over to its own callback. */
  lemma FailedBetween(st: State, p: Path)
    requires Inv(st, {p}) && p != st.root && Started(st, p) && Calls(st, p) != []
    requires p != [] && Parent(p) in st.frames && !st.frames[Parent(p)].hasError
    ensures Between(WithError(st, Parent(p)), Parent(p))
  {
    var q := Parent(p);
    var after := WithError(st, q);
    assert Started(after, q) && Calls(after, q) == [] && !WaitingForKids(after, q) by {
      assert FrameOk(st, q, {p});
      assert p in OpenKids(st, q, {p});
      assert OneStage(st, q) && WaitingForKids(st, q);
    }
    assert OneStage(st, q) && FrameOk(st, q, {p}) && p in OpenKids(st, q, {p});
    forall x | x != q
      ensures OneStage(after, x)
    {
      FailedStage(st, p, x);
    }
    forall r | r in st.frames && r != q
      ensures FrameOk(after, r, {})
    {
      FailedFrame(st, p, r);
    }
    assert forall x :: Calls(after, x) == Calls(st, x);
  }

  lemma {:induction false} CallbackKeeps(st: State, p: Path, ok: bool)
    requires Between(st, p) && (ok ==> p !in st.fs)
    requires p in st.frames && st.frames[p].hasError ==> !ok
    ensures Inv(Callback(st, p, ok), {})
    decreases |p|
  {
    var called := st.(calls := st.calls[p := Calls(st, p) + [ok]]);
    CalledInv(st, p, ok);
    assert Calls(st, p) + [ok] == [ok];
    if p == st.root {
      ToldInv(called, p);
    } else {
      assert Started(called, p) && p != [];
      var q := Parent(p);
      if called.frames[q].hasError {
        ToldInv(called, p);
      } else if ok {
        CountedInv(called, p);
      } else {
        FailedBetween(called, p);
        CallbackKeeps(WithError(called, q), q, false);
      }
    }
  }

  // ---------------------------------------------------------------- replies

  lemma StartInv(root: Path, fs: map<Path, Kind>)
    requires Tree(fs)
    ensures Inv(Start(root, fs), {})
  {
  }

  lemma TreeAfterRemove(fs: map<Path, Kind>, p: Path)
    requires Tree(fs) && Kids(fs, p) == {}
    ensures Tree(fs - {p})
  {
    forall x | x in fs - {p} && x != []
      ensures Parent(x) in fs - {p}
    {
      assert x !in Kids(fs, p);
    }
  }

  /** A file has no kids: the parent of anything that exists is a folder. */
  lemma FileHasNoKids(fs: map<Path, Kind>, p: Path)
    requires Tree(fs) && p in fs && fs[p] == File
    ensures Kids(fs, p) == {}
  {
  }

  lemma AnsweredBetween(st: State, r: Request, o: Outcome)
    requires Inv(st, {}) && Outstanding(st, r) && Honest(st.fs, r, o)
    requires r.Readdir? ==> o != Ok
    ensures var p := r.path;
            Between(st.(reading := st.reading - {p}, unlinking := st.unlinking - {p}, removing := st.removing - {p},
                        fs := if o == Ok then st.fs - {p} else st.fs), p)
    ensures r.path in st.frames ==> !st.frames[r.path].hasError
  {
    var p := r.path;
    var after := st.(reading := st.reading - {p}, unlinking := st.unlinking - {p}, removing := st.removing - {p},
                     fs := if o == Ok then st.fs - {p} else st.fs);
    assert OneStage(st, p);
    if o == Ok {
      if r.Unlink? {
        FileHasNoKids(st.fs, p);
      }
      TreeAfterRemove(st.fs, p);
    }
    forall x | x != p
      ensures OneStage(after, x)
    {
      assert OneStage(st, x);
      assert Started(after, x) == Started(st, x);
    }
    forall q | q in st.frames
      ensures FrameOk(after, q, {})
    {
      assert FrameOk(st, q, {});
      assert OpenKids(after, q, {}) == OpenKids(st, q, {});
    }
  }

  lemma ListedStage(st: State, p: Path, x: Path)
    requires Inv(st, {}) && p in st.reading
    ensures OneStage(Deliver(st, Readdir(p), Ok), x)
  {
    var after := Deliver(st, Readdir(p), Ok);
    var kids := Kids(st.fs, p);
    assert OneStage(st, p) && OneStage(st, x);
    assert x in kids ==> x != [] && Parent(x) == p;
    assert Started(after, x) <==> Started(st, x) || x in kids;
    if x in kids {
      KidNotStarted(st, p, x);
    }
  }

  lemma ListedFrame(st: State, p: Path, q: Path)
    requires Inv(st, {}) && p in st.reading && q in Deliver(st, Readdir(p), Ok).frames
    ensures FrameOk(Deliver(st, Readdir(p), Ok), q, {})
  {
    var after := Deliver(st, Readdir(p), Ok);
    var kids := Kids(st.fs, p);
    assert OneStage(st, p);
    if q != p {
      assert FrameOk(st, q, {});
      assert OpenKids(after, q, {}) == OpenKids(st, q, {});
    } else {
      UnderStarted(st, p);
      forall c | c in kids
        ensures Calls(after, c) == []
      {
        KidNotStarted(st, p, c);
      }
      assert OpenKids(after, p, {}) == kids;
    }
  }

  lemma ListedInv(st: State, p: Path)
    requires Inv(st, {}) && p in st.reading
    ensures Inv(Deliver(st, Readdir(p), Ok), {})
  {
    forall x
      ensures OneStage(Deliver(st, Readdir(p), Ok), x)
    {
      ListedStage(st, p, x);
    }
    forall q | q in Deliver(st, Readdir(p), Ok).frames
      ensures FrameOk(Deliver(st, Readdir(p), Ok), q, {})
    {
      ListedFrame(st, p, q);
    }
  }

  lemma UnderStarted(st: State, p: Path)
    requires Inv(st, {}) && Started(st, p)
    ensures Under(st.root, p)
  {
    if p != st.root {
      assert FrameOk(st, Parent(p), {});
    }
  }

  /** No call was made for the entries of a folder before it was read. */
  lemma KidNotStarted(st: State, p: Path, c: Path)
    requires Inv(st, {}) && p in st.reading && c != [] && Parent(c) == p
    ensures !Started(st, c) && Calls(st, c) == [] && c !in st.frames
    ensures c !in st.reading && c !in st.unlinking && c !in st.removing && !WaitingForKids(st, c)
  {
    assert OneStage(st, p) && OneStage(st, c);
    UnderStarted(st, p);
  }

  /** Stages and frames do not depend on what exists on the server. */
  lemma StageIgnoresServer(st: State, fs: map<Path, Kind>, x: Path)
    requires OneStage(st, x)
    ensures OneStage(st.(fs := fs), x)
  {
    assert Started(st.(fs := fs), x) == Started(st, x);
  }

  lemma FrameIgnoresServer(st: State, fs: map<Path, Kind>, q: Path)
    requires q in st.frames && FrameOk(st, q, {})
    ensures FrameOk(st.(fs := fs), q, {})
  {
    assert OpenKids(st.(fs := fs), q, {}) == OpenKids(st, q, {});
  }

  lemma VanishKeeps(st: State, p: Path)
    requires Inv(st, {}) && p in st.fs && Kids(st.fs, p) == {}
    ensures Inv(st.(fs := st.fs - {p}), {})
  {
    TreeAfterRemove(st.fs, p);
    forall x
      ensures OneStage(st.(fs := st.fs - {p}), x)
    {
      StageIgnoresServer(st, st.fs - {p}, x);
    }
    forall q | q in st.frames
      ensures FrameOk(st.(fs := st.fs - {p}), q, {})
    {
      FrameIgnoresServer(st, st.fs - {p}, q);
    }
  }

  lemma ReplyKeeps(st: State, r: Request, o: Outcome)
    requires Inv(st, {}) && Outstanding(st, r) && Honest(st.fs, r, o) && (r.Readdir? ==> o != Ok)
    ensures Inv(Deliver(st, r, o), {})
  {
    AnsweredBetween(st, r, o);
    var p := r.path;
    assert OneStage(st, p);
    SameSets(st, r, o);
    CallbackKeeps(st.(reading := st.reading - {p}, unlinking := st.unlinking - {p}, removing := st.removing - {p},
                      fs := if o == Ok then st.fs - {p} else st.fs), p, o != Fails);
  }

  lemma StepKeeps(st: State, e: Event)
    requires Inv(st, {}) && Enabled(st, e)
    ensures Inv(Step(st, e), {})
  {
    match e
    case Vanish(p) => VanishKeeps(st, p);
    case Reply(r, o) =>
      if r.Readdir? && o == Ok {
        ListedInv(st, r.path);
      } else {
        ReplyKeeps(st, r, o);
      }
  }

  /** A path has one request at most, so taking it out of all three sets takes it out of one. */
  lemma SameSets(st: State, r: Request, o: Outcome)
    requires OneStage(st, r.path) && Outstanding(st, r) && (r.Readdir? ==> o != Ok)
    ensures Deliver(st, r, o)
            == (var p := r.path;
                Callback(st.(reading := st.reading - {p}, unlinking := st.unlinking - {p}, removing := st.removing - {p},
                             fs := if o == Ok then st.fs - {p} else st.fs), p, o != Fails))
  {
    var p := r.path;
    assert p !in st.reading ==> st.reading - {p} == st.reading;
    assert p !in st.unlinking ==> st.unlinking - {p} == st.unlinking;
    assert p !in st.removing ==> st.removing - {p} == st.removing;
  }

  // ---------------------------------------------------------------- every run

  ghost predicate Run(st: State, events: seq<Event>, after: State)
    decreases |events|
  {
    if events == [] then after == st
    else Enabled(st, events[0]) && Run(Step(st, events[0]), events[1..], after)
  }

  lemma {:induction false} RunKeeps(st: State, events: seq<Event>, after: State)
    requires Inv(st, {}) && Run(st, events, after)
    ensures Inv(after, {})
    decreases |events|
  {
    if events != [] {
      StepKeeps(st, events[0]);
      RunKeeps(Step(st, events[0]), events[1..], after);
    }
  }

  /** While a call has not called back, some request at or below its path is unanswered. */
  lemma PendingHasRequest(st: State, p: Path, bound: nat)
    requires Inv(st, {}) && Started(st, p) && Calls(st, p) == []
    requires forall q :: q in st.frames ==> |q| < bound
    ensures st.reading + st.unlinking + st.removing != {}
    decreases bound - |p|
  {
    assert OneStage(st, p);
    if p in st.frames {
      assert FrameOk(st, p, {});
      if WaitingForKids(st, p) {
        assert OpenKids(st, p, {}) != {};
        var c :| c in OpenKids(st, p, {});
        assert Started(st, c);
        assert |c| == |p| + 1;
        PendingHasRequest(st, c, bound);
      }
    }
  }

  lemma LongestFrame(frames: map<Path, Frame>) returns (bound: nat)
    ensures forall q :: q in frames ==> |q| < bound
  {
    if frames == map[] {
      bound := 0;
    } else {
      var q :| q in frames;
      var rest := LongestFrame(frames - {q});
      bound := if rest <= |q| then |q| + 1 else rest;
      forall x | x in frames
        ensures |x| < bound
      {
        assert x == q || x in frames - {q};
      }
    }
  }

  /**
   For every folder tree and every order of replies: the callback is invoked at most once, and exactly
   once when no request is left unanswered.
   */
  lemma CalledExactlyOnce(root: Path, fs: map<Path, Kind>, events: seq<Event>, st: State)
    requires Tree(fs) && Run(Start(root, fs), events, st)
    ensures |Calls(st, st.root)| <= 1
    ensures st.reading + st.unlinking + st.removing == {} ==> |Calls(st, st.root)| == 1
  {
    StartInv(root, fs);
    RunKeeps(Start(root, fs), events, st);
    assert OneStage(st, st.root);
    if Calls(st, st.root) == [] {
      var bound := LongestFrame(st.frames);
      PendingHasRequest(st, st.root, bound);
    }
  }

  // ---------------------------------------------------------------- the replies run out

  /** The folder and everything in it: each path is read or unlinked once at most, and removed once at most. */
  function Paths(root: Path, fs: map<Path, Kind>): set<Path> {
    {root} + set p | p in fs && Under(root, p)
  }

  function Uncalled(st: State, paths: set<Path>): set<Path> {
    set p | p in paths && Calls(st, p) == []
  }

  /** The calls whose first request was not answered, and those not made yet. */
  function Untouched(st: State, paths: set<Path>): set<Path> {
    set p | p in paths && Calls(st, p) == [] && p !in st.frames && p !in st.unlinking && p !in st.removing
  }

  /** More replies than this cannot come. */
  function Budget(st: State, paths: set<Path>): nat {
    |Uncalled(st, paths)| + |Untouched(st, paths)|
  }

  ghost predicate FromTree(st: State, fs: map<Path, Kind>) {
    st.fs.Keys <= fs.Keys && forall q :: q in st.frames ==> st.frames[q].kids <= fs.Keys
  }

  lemma StartedInPaths(st: State, fs: map<Path, Kind>, p: Path)
    requires Inv(st, {}) && FromTree(st, fs) && Started(st, p)
    ensures p in Paths(st.root, fs)
  {
    UnderStarted(st, p);
  }

  /** `after` has called back whatever `st` has, and sent what it has sent. */
  ghost predicate Further(st: State, after: State) {
    && after.root == st.root && after.fs == st.fs
    && after.frames.Keys == st.frames.Keys && after.unlinking == st.unlinking && st.removing <= after.removing
    && (forall q :: q in st.frames ==> after.frames[q].kids == st.frames[q].kids)
    && (forall x :: Calls(after, x) == [] ==> Calls(st, x) == [])
  }

  lemma {:induction false} CallbackFurthers(st: State, p: Path, ok: bool)
    ensures Further(st, Callback(st, p, ok)) && Calls(Callback(st, p, ok), p) != []
    decreases |p|
  {
    var called := st.(calls := st.calls[p := Calls(st, p) + [ok]]);
    if p != st.root && p != [] {
      var q := Parent(p);
      if q in called.frames && !called.frames[q].hasError && !ok {
        CallbackFurthers(called.(frames := called.frames[q := called.frames[q].(hasError := true)]), q, false);
      }
    }
  }

  lemma FewerPaths(a: set<Path>, b: set<Path>, p: Path)
    requires a <= b && p in b && p !in a
    ensures |a| < |b|
  {
    assert a <= b - {p};
    NoMorePaths(a, b - {p});
  }

  lemma NoMorePaths(a: set<Path>, b: set<Path>)
    requires a <= b
    ensures |a| <= |b|
  {
    assert b == a + (b - a);
  }

  lemma CallSpends(st: State, after: State, paths: set<Path>, p: Path)
    requires p in paths && Calls(st, p) == [] && Calls(after, p) != []
    requires forall x :: Calls(after, x) == [] ==> Calls(st, x) == []
    requires forall x :: x in st.frames || x in st.unlinking || x in st.removing ==>
               x == p || x in after.frames || x in after.unlinking || x in after.removing
    ensures Budget(after, paths) < Budget(st, paths)
  {
    FewerPaths(Uncalled(after, paths), Uncalled(st, paths), p);
    NoMorePaths(Untouched(after, paths), Untouched(st, paths));
  }

  lemma ListingSpends(st: State, p: Path, paths: set<Path>)
    requires OneStage(st, p) && p in st.reading && p in paths
    ensures Budget(Deliver(st, Readdir(p), Ok), paths) < Budget(st, paths)
  {
    var after := Deliver(st, Readdir(p), Ok);
    assert Uncalled(after, paths) == Uncalled(st, paths);
    FewerPaths(Untouched(after, paths), Untouched(st, paths), p);
  }

  lemma AnswerSpends(st: State, r: Request, o: Outcome, paths: set<Path>)
    requires OneStage(st, r.path) && Outstanding(st, r) && r.path in paths && (r.Readdir? ==> o != Ok)
    ensures Budget(Deliver(st, r, o), paths) < Budget(st, paths)
  {
    var p := r.path;
    SameSets(st, r, o);
    var answered := st.(reading := st.reading - {p}, unlinking := st.unlinking - {p}, removing := st.removing - {p},
                        fs := if o == Ok then st.fs - {p} else st.fs);
    assert forall x :: Calls(answered, x) == Calls(st, x);
    CallbackFurthers(answered, p, o != Fails);
    CallSpends(st, Deliver(st, r, o), paths, p);
  }

  lemma ListingFromTree(st: State, p: Path, fs: map<Path, Kind>)
    requires FromTree(st, fs)
    ensures FromTree(Deliver(st, Readdir(p), Ok), fs)
  {
  }

  lemma AnswerFromTree(st: State, r: Request, o: Outcome, fs: map<Path, Kind>)
    requires OneStage(st, r.path) && Outstanding(st, r) && FromTree(st, fs) && (r.Readdir? ==> o != Ok)
    ensures FromTree(Deliver(st, r, o), fs)
  {
    var p := r.path;
    SameSets(st, r, o);
    CallbackFurthers(st.(reading := st.reading - {p}, unlinking := st.unlinking - {p}, removing := st.removing - {p},
                         fs := if o == Ok then st.fs - {p} else st.fs), p, o != Fails);
  }

  lemma StepFromTree(st: State, e: Event, fs: map<Path, Kind>)
    requires Inv(st, {}) && Enabled(st, e) && FromTree(st, fs)
    ensures FromTree(Step(st, e), fs) && Step(st, e).root == st.root
  {
    StepRoot(st, e);
    match e
    case Vanish(p) =>
    case Reply(r, o) =>
      if r.Readdir? && o == Ok {
        ListingFromTree(st, r.path, fs);
      } else {
        assert OneStage(st, r.path);
        AnswerFromTree(st, r, o, fs);
      }
  }

  lemma StepSpends(st: State, e: Event, fs: map<Path, Kind>)
    requires Inv(st, {}) && Enabled(st, e) && FromTree(st, fs)
    ensures var paths := Paths(st.root, fs);
            Budget(Step(st, e), paths) + (if e.Reply? then 1 else 0) <= Budget(st, paths)
  {
    match e
    case Vanish(p) =>
      assert Uncalled(Step(st, e), Paths(st.root, fs)) == Uncalled(st, Paths(st.root, fs));
      assert Untouched(Step(st, e), Paths(st.root, fs)) == Untouched(st, Paths(st.root, fs));
    case Reply(r, o) =>
      assert OneStage(st, r.path);
      StartedInPaths(st, fs, r.path);
      if r.Readdir? && o == Ok {
        ListingSpends(st, r.path, Paths(st.root, fs));
      } else {
        AnswerSpends(st, r, o, Paths(st.root, fs));
      }
  }

  function Replies(events: seq<Event>): nat {
    if events == [] then 0 else (if events[0].Reply? then 1 else 0) + Replies(events[1..])
  }

  lemma {:induction false} RunSpends(st: State, events: seq<Event>, after: State, fs: map<Path, Kind>)
    requires Inv(st, {}) && FromTree(st, fs) && Run(st, events, after)
    ensures Budget(after, Paths(st.root, fs)) + Replies(events) <= Budget(st, Paths(st.root, fs))
    decreases |events|
  {
    if events != [] {
      StepKeeps(st, events[0]);
      StepFromTree(st, events[0], fs);
      StepSpends(st, events[0], fs);
      RunSpends(Step(st, events[0]), events[1..], after, fs);
    }
  }

  /** No path is in more than two requests: a run has at most twice as many replies as the tree has paths. */
  lemma RepliesRunOut(root: Path, fs: map<Path, Kind>, events: seq<Event>, st: State)
    requires Tree(fs) && Run(Start(root, fs), events, st)
    ensures Replies(events) <= 2 * |Paths(root, fs)|
  {
    StartInv(root, fs);
    RunSpends(Start(root, fs), events, st, fs);
    NoMorePaths(Uncalled(Start(root, fs), Paths(root, fs)), Paths(root, fs));
    NoMorePaths(Untouched(Start(root, fs), Paths(root, fs)), Paths(root, fs));
  }

  lemma {:induction false} RunExtends(st: State, events: seq<Event>, after: State, e: Event)
    requires Run(st, events, after) && Enabled(after, e)
    ensures Run(st, events + [e], Step(after, e)) && Replies(events + [e]) == Replies(events) + (if e.Reply? then 1 else 0)
    decreases |events|
  {
    if events == [] {
      assert events + [e] == [e];
      assert [e][1..] == [];
    } else {
      assert (events + [e])[0] == events[0] && (events + [e])[1..] == events[1..] + [e];
      RunExtends(Step(st, events[0]), events[1..], after, e);
    }
  }

  /** As long as the callback was not invoked, one more reply can come; so it comes within the bound. */
  lemma CallbackComes(root: Path, fs: map<Path, Kind>, events: seq<Event>, st: State)
    requires Tree(fs) && Run(Start(root, fs), events, st) && Replies(events) >= 2 * |Paths(root, fs)|
    ensures st.reading + st.unlinking + st.removing == {} && |Calls(st, st.root)| == 1
  {
    if st.reading + st.unlinking + st.removing != {} {
      var p :| p in st.reading + st.unlinking + st.removing;
      var r := if p in st.reading then Readdir(p) else if p in st.unlinking then Unlink(p) else Rmdir(p);
      RunExtends(Start(root, fs), events, st, Reply(r, Fails));
      RepliesRunOut(root, fs, events + [Reply(r, Fails)], Step(st, Reply(r, Fails)));
    }
    CalledExactlyOnce(root, fs, events, st);
  }

  // ---------------------------------------------------------------- what success means

  lemma {:induction false} NothingUnderMissing(fs: map<Path, Kind>, p: Path, x: Path)
    requires Tree(fs) && Under(p, x) && p !in fs
    ensures x !in fs
    decreases |x|
  {
    if x != p {
      assert x[..|x| - 1][..|p|] == p;
      NothingUnderMissing(fs, p, Parent(x));
    }
  }

  lemma StepRoot(st: State, e: Event)
    ensures Step(st, e).root == st.root
    ensures Step(st, e).fs.Keys <= st.fs.Keys
    ensures forall x :: x in st.fs && x !in Step(st, e).fs ==> x == if e.Reply? then e.request.path else e.path
  {
    if e.Reply? {
      var p, ok := e.request.path, e.outcome != Fails;
      match e.request
      case Readdir(_) => CallbackFrame(st.(reading := st.reading - {p}), p, ok);
      case Unlink(_) =>
        CallbackFrame(st.(unlinking := st.unlinking - {p}, fs := if e.outcome == Ok then st.fs - {p} else st.fs), p, ok);
      case Rmdir(_) =>
        CallbackFrame(st.(removing := st.removing - {p}, fs := if e.outcome == Ok then st.fs - {p} else st.fs), p, ok);
    }
  }

  /** Callbacks send requests; they do not touch the server. */
  lemma {:induction false} CallbackFrame(st: State, p: Path, ok: bool)
    ensures Callback(st, p, ok).root == st.root && Callback(st, p, ok).fs == st.fs
    decreases |p|
  {
    var called := st.(calls := st.calls[p := Calls(st, p) + [ok]]);
    if p != st.root && p != [] {
      var q := Parent(p);
      if q in called.frames && !called.frames[q].hasError && !ok {
        CallbackFrame(called.(frames := called.frames[q := called.frames[q].(hasError := true)]), q, false);
      }
    }
  }

  /** Success is reported only when neither the folder nor anything below it exists any more. */
  lemma SuccessMeansGone(root: Path, fs: map<Path, Kind>, events: seq<Event>, st: State, x: Path)
    requires Tree(fs) && Run(Start(root, fs), events, st)
    requires Calls(st, root) == [true] && Under(root, x)
    ensures x !in st.fs
  {
    StartInv(root, fs);
    RunKeeps(Start(root, fs), events, st);
    NothingUnderMissing(st.fs, root, x);
  }

  /** The folder itself is removed only after each entry it listed has reported success. */
  lemma FolderRemovedLast(root: Path, fs: map<Path, Kind>, events: seq<Event>, st: State, p: Path, c: Path)
    requires Tree(fs) && Run(Start(root, fs), events, st)
    requires p in st.frames && c in st.frames[p].kids
    requires p in st.removing || Calls(st, p) == [true]
    ensures Calls(st, c) == [true]
  {
    StartInv(root, fs);
    RunKeeps(Start(root, fs), events, st);
    assert OneStage(st, p) && FrameOk(st, p, {});
    assert OpenKids(st, p, {}) == {};
  }

  /** Whatever disappears outside the folder was not deleted by this call. */
  lemma OutsideUntouched(st: State, e: Event, x: Path)
    requires Inv(st, {}) && Enabled(st, e) && x in st.fs && x !in Step(st, e).fs && !Under(st.root, x)
    ensures e == Vanish(x)
  {
    StepRoot(st, e);
    if e.Reply? {
      assert OneStage(st, e.request.path);
      UnderStarted(st, e.request.path);
    }
  }

  // ---------------------------------------------------------------- which request for which entry

  /** Folders are read and removed, everything else is unlinked, and nothing appears that was not listed. */
  ghost predicate Fitting(st: State) {
    && (forall p :: p in st.fs && (p in st.reading || p in st.removing || p in st.frames) ==> st.fs[p] == Dir)
    && (forall p :: p in st.fs && p in st.unlinking ==> st.fs[p] == File)
    && (forall p :: p in st.frames ==> Kids(st.fs, p) <= st.frames[p].kids)
    && (forall p :: p in st.removing && p !in st.frames ==> Kids(st.fs, p) == {})
  }

  lemma FurtherFits(st: State, after: State)
    requires Fitting(st) && Further(st, after) && after.reading == st.reading
    requires forall q :: q in after.removing && q !in st.removing ==> q in st.frames
    ensures Fitting(after)
  {
  }

  lemma {:induction false} CallbackRemovesFrames(st: State, p: Path, ok: bool)
    ensures var after := Callback(st, p, ok);
            after.reading == st.reading && forall q :: q in after.removing && q !in st.removing ==> q in st.frames
    decreases |p|
  {
    var called := st.(calls := st.calls[p := Calls(st, p) + [ok]]);
    if p != st.root && p != [] {
      var q := Parent(p);
      if q in called.frames && !called.frames[q].hasError && !ok {
        CallbackRemovesFrames(called.(frames := called.frames[q := called.frames[q].(hasError := true)]), q, false);
      }
    }
  }

  lemma FewerFit(st: State, p: Path, fs: map<Path, Kind>)
    requires Fitting(st) && fs.Keys <= st.fs.Keys && forall x :: x in fs ==> fs[x] == st.fs[x]
    ensures Fitting(st.(reading := st.reading - {p}, unlinking := st.unlinking - {p}, removing := st.removing - {p}, fs := fs))
  {
  }

  lemma AnswerFits(st: State, r: Request, o: Outcome)
    requires Inv(st, {}) && Fitting(st) && Outstanding(st, r) && (r.Readdir? ==> o != Ok)
    ensures Fitting(Deliver(st, r, o))
  {
    var p := r.path;
    var fs := if o == Ok then st.fs - {p} else st.fs;
    assert OneStage(st, p);
    SameSets(st, r, o);
    FewerFit(st, p, fs);
    var answered := st.(reading := st.reading - {p}, unlinking := st.unlinking - {p}, removing := st.removing - {p}, fs := fs);
    CallbackFurthers(answered, p, o != Fails);
    CallbackRemovesFrames(answered, p, o != Fails);
    FurtherFits(answered, Deliver(st, r, o));
  }

  lemma ListingFits(st: State, p: Path)
    requires Inv(st, {}) && Fitting(st) && p in st.reading && Honest(st.fs, Readdir(p), Ok)
    ensures Fitting(Deliver(st, Readdir(p), Ok))
  {
    assert OneStage(st, p);
    var kids := Kids(st.fs, p);
    forall c | c in kids
      ensures c !in st.frames && c !in st.reading && c !in st.unlinking && c !in st.removing
    {
      KidNotStarted(st, p, c);
    }
  }

  lemma StepFits(st: State, e: Event)
    requires Inv(st, {}) && Fitting(st) && Enabled(st, e)
    ensures Fitting(Step(st, e))
  {
    match e
    case Vanish(p) =>
    case Reply(r, o) =>
      if r.Readdir? && o == Ok {
        ListingFits(st, r.path);
      } else {
        AnswerFits(st, r, o);
      }
  }

  lemma {:induction false} RunFits(st: State, events: seq<Event>, after: State)
    requires Inv(st, {}) && Fitting(st) && Run(st, events, after)
    ensures Fitting(after)
    decreases |events|
  {
    if events != [] {
      StepKeeps(st, events[0]);
      StepFits(st, events[0]);
      RunFits(Step(st, events[0]), events[1..], after);
    }
  }

  /** A folder is removed only when it is empty. */
  lemma RemovedWhenEmpty(st: State, p: Path)
    requires Inv(st, {}) && Fitting(st) && p in st.removing
    ensures Kids(st.fs, p) == {}
  {
    if p in st.frames {
      assert OneStage(st, p) && FrameOk(st, p, {});
      assert OpenKids(st, p, {}) == {};
      assert forall c :: c in st.frames[p].kids ==> Calls(st, c) == [true];
    }
  }

  /** No request is futile: each one is of the kind that its path needs, and can be answered with success. */
  lemma RequestsFit(root: Path, fs: map<Path, Kind>, events: seq<Event>, st: State, r: Request)
    requires Tree(fs) && (root in fs ==> fs[root] == Dir) && Run(Start(root, fs), events, st)
    requires Outstanding(st, r)
    ensures r.path in st.fs ==> Honest(st.fs, r, Ok)
    ensures r.path !in st.fs ==> Honest(st.fs, r, NoSuchFile)
  {
    StartInv(root, fs);
    RunKeeps(Start(root, fs), events, st);
    RunFits(Start(root, fs), events, st);
    if r.Rmdir? {
      RemovedWhenEmpty(st, r.path);
    }
  }

  // ---------------------------------------------------------------- exactly when a deletion succeeds

  /** A call reports its outcome once and for all. */
  ghost predicate CallsStay(st: State, after: State) {
    forall x :: Calls(st, x) <= Calls(after, x)
  }

  lemma {:induction false} CallbackCallsStay(st: State, p: Path, ok: bool)
    ensures CallsStay(st, Callback(st, p, ok))
    ensures Calls(st, p) + [ok] <= Calls(Callback(st, p, ok), p)
    decreases |p|
  {
    var called := st.(calls := st.calls[p := Calls(st, p) + [ok]]);
    assert CallsStay(st, called);
    if p != st.root && p != [] {
      var q := Parent(p);
      if q in called.frames && !called.frames[q].hasError && !ok {
        CallbackCallsStay(called.(frames := called.frames[q := called.frames[q].(hasError := true)]), q, false);
      }
    }
  }

  lemma StepCallsStay(st: State, e: Event)
    ensures CallsStay(st, Step(st, e))
    ensures e.Reply? && e.outcome == Fails ==>
              Calls(st, e.request.path) + [false] <= Calls(Step(st, e), e.request.path)
  {
    if e.Reply? {
      var p, ok := e.request.path, e.outcome != Fails;
      var fs := if e.outcome == Ok then st.fs - {p} else st.fs;
      match e.request
      case Readdir(_) => CallbackCallsStay(st.(reading := st.reading - {p}), p, ok);
      case Unlink(_) => CallbackCallsStay(st.(unlinking := st.unlinking - {p}, fs := fs), p, ok);
      case Rmdir(_) => CallbackCallsStay(st.(removing := st.removing - {p}, fs := fs), p, ok);
    }
  }

  /** A failure below has reached the root. */
  lemma {:induction false} FailureClimbs(st: State, p: Path)
    requires Inv(st, {}) && Calls(st, p) == [false]
    ensures Calls(st, st.root) == [false]
    decreases |p|
  {
    assert OneStage(st, p);
    if p != st.root {
      assert FrameOk(st, Parent(p), {});
      FailureClimbs(st, Parent(p));
    }
  }

  predicate Failing(e: Event) {
    e.Reply? && e.outcome == Fails
  }

  lemma FailingStep(st: State, e: Event)
    requires Inv(st, {}) && Enabled(st, e) && Failing(e)
    ensures Calls(Step(st, e), st.root) == [false]
  {
    StepKeeps(st, e);
    StepCallsStay(st, e);
    StepRoot(st, e);
    assert OneStage(st, e.request.path) && OneStage(Step(st, e), e.request.path);
    FailureClimbs(Step(st, e), e.request.path);
  }

  lemma {:induction false} RunCallsStay(st: State, events: seq<Event>, after: State)
    requires Run(st, events, after)
    ensures CallsStay(st, after) && after.root == st.root
    decreases |events|
  {
    if events != [] {
      StepCallsStay(st, events[0]);
      StepRoot(st, events[0]);
      RunCallsStay(Step(st, events[0]), events[1..], after);
    }
  }

  lemma {:induction false} FailureStays(st: State, events: seq<Event>, after: State, k: nat)
    requires Inv(st, {}) && Run(st, events, after) && k < |events| && Failing(events[k])
    ensures Calls(after, st.root) == [false]
    decreases |events|
  {
    var next := Step(st, events[0]);
    StepKeeps(st, events[0]);
    StepRoot(st, events[0]);
    if k == 0 {
      FailingStep(st, events[0]);
      RunCallsStay(next, events[1..], after);
      RunKeeps(next, events[1..], after);
      assert OneStage(after, st.root);
    } else {
      FailureStays(next, events[1..], after, k - 1);
    }
  }

  predicate AllTrue(outcomes: seq<bool>) {
    forall i :: 0 <= i < |outcomes| ==> outcomes[i]
  }

  /** Nothing has failed so far. */
  ghost predicate AllWell(st: State) {
    (forall x :: x in st.calls ==> AllTrue(st.calls[x])) && (forall q :: q in st.frames ==> !st.frames[q].hasError)
  }

  lemma WellStep(st: State, e: Event)
    requires AllWell(st) && !Failing(e)
    ensures AllWell(Step(st, e))
  {
    if e.Reply? {
      var p := e.request.path;
      var fs := if e.outcome == Ok then st.fs - {p} else st.fs;
      match e.request
      case Readdir(_) => if e.outcome != Ok { WellCallback(st.(reading := st.reading - {p}), p); }
      case Unlink(_) => WellCallback(st.(unlinking := st.unlinking - {p}, fs := fs), p);
      case Rmdir(_) => WellCallback(st.(removing := st.removing - {p}, fs := fs), p);
    }
  }

  lemma WellCallback(st: State, p: Path)
    requires AllWell(st)
    ensures AllWell(Callback(st, p, true))
  {
    var called := st.(calls := st.calls[p := Calls(st, p) + [true]]);
    assert AllTrue(Calls(st, p) + [true]);
  }

  lemma {:induction false} RunWell(st: State, events: seq<Event>, after: State)
    requires AllWell(st) && Run(st, events, after) && forall e :: e in events ==> !Failing(e)
    ensures AllWell(after)
    decreases |events|
  {
    if events != [] {
      WellStep(st, events[0]);
      RunWell(Step(st, events[0]), events[1..], after);
    }
  }

  /** A finished deletion reports success exactly when no request was answered with a failure. */
  lemma SucceedsIff(root: Path, fs: map<Path, Kind>, events: seq<Event>, st: State)
    requires Tree(fs) && Run(Start(root, fs), events, st)
    requires st.reading + st.unlinking + st.removing == {}
    ensures Calls(st, root) == [true] <==> forall e :: e in events ==> !Failing(e)
  {
    StartInv(root, fs);
    CalledExactlyOnce(root, fs, events, st);
    RunCallsStay(Start(root, fs), events, st);
    if forall e :: e in events ==> !Failing(e) {
      RunWell(Start(root, fs), events, st);
      assert AllTrue(Calls(st, root));
    } else {
      var k :| 0 <= k < |events| && Failing(events[k]);
      FailureStays(Start(root, fs), events, st, k);
    }
  }

  // ---------------------------------------------------------------- the callbacks, as the source runs them

  class Deleter {
    const root: Path
    var fs: map<Path, Kind>         // the server, as far as the replies change it
    var reading: set<Path>
    var unlinking: set<Path>
    var removing: set<Path>
    var frames: map<Path, Frame>    // `remaining` and `hasError` of each closure
    var calls: map<Path, seq<bool>>

    ghost function Now(): State
      reads this
    {
      State(root, fs, reading, unlinking, removing, frames, calls)
    }

    constructor (root: Path, fs: map<Path, Kind>)
      ensures Now() == Start(root, fs)
    {
      this.root, this.fs := root, fs;
      reading, unlinking, removing, frames, calls := {root}, {}, {}, map[], map[];
    }

    /** `callback(err)` of the call for `p`. */
    method RunCallback(p: Path, ok: bool)
      modifies this
      ensures Now() == Callback(old(Now()), p, ok)
      decreases |p|, 1
    {
      calls := calls[p := (if p in calls then calls[p] else []) + [ok]];
      if p != root && p != [] {
        RunOnDeleted(Parent(p), ok);
      }
    }

    method RunOnDeleted(q: Path, ok: bool)
      modifies this
      ensures Now() == OnDeleted(old(Now()), q, ok)
      decreases |q|, 2
    {
      if q !in frames || frames[q].hasError { return; }
      if !ok {
        frames := frames[q := frames[q].(hasError := true)];
        RunCallback(q, false);
        return;
      }
      var left := frames[q].remaining - 1;
      frames := frames[q := frames[q].(remaining := left)];
      if left == 0 {
        removing := removing + {q};
      }
    }

    /** The reply to `readdir`. */
    method ReceiveListing(p: Path, o: Outcome)
      requires p in reading && Honest(fs, Readdir(p), o)
      modifies this
      ensures Now() == Deliver(old(Now()), Readdir(p), o)
    {
      reading := reading - {p};
      if o != Ok {
        RunCallback(p, o != Fails);
        return;
      }
      var list := Kids(fs, p);
      if list == {} {
        removing := removing + {p};
        return;
      }
      frames := frames[p := Frame(list, |list|, false)];
      DeleteEntries(list);
    }

    /** `list.forEach(...)`: folders are read, everything else is unlinked. */
    method DeleteEntries(list: set<Path>)
      requires list <= fs.Keys
      modifies `reading, `unlinking
      ensures reading == old(reading) + (set c | c in list && fs[c] == Dir)
      ensures unlinking == old(unlinking) + (set c | c in list && fs[c] == File)
    {
      var rest := list;
      while rest != {}
        invariant rest <= list
        invariant reading == old(reading) + (set c | c in list - rest && fs[c] == Dir)
        invariant unlinking == old(unlinking) + (set c | c in list - rest && fs[c] == File)
      {
        var c :| c in rest;
        if fs[c] == Dir {
          reading := reading + {c};
        } else {
          unlinking := unlinking + {c};
        }
        rest := rest - {c};
      }
      assert list - rest == list;
    }

    /** The reply to `unlink` or `rmdir`. */
    method ReceiveDeletion(r: Request, o: Outcome)
      requires !r.Readdir? && Outstanding(Now(), r) && Honest(fs, r, o)
      modifies this
      ensures Now() == Deliver(old(Now()), r, o)
    {
      if o == Ok {
        fs := fs - {r.path};
      }
      match r {
        case Unlink(p) => unlinking := unlinking - {p};
        case Rmdir(p) => removing := removing - {p};
      }
      RunCallback(r.path, o != Fails);
    }
  }
}
