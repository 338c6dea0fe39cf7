/**
Path resolution in `src/server/files.rs`: the walk that opens one component after the other from a directory handle,
while others change the file system, and `safe_resolve`, which follows links and compares canonical paths.
*/
module PathWalk {
  import opened Wrappers

  type Name = string

  type Inode = nat

  /** What the process may do: open the node for reading and, if it is a directory, look names up in it. */
  datatype Node =
    | Dir(entries: map<Name, Inode>, opens: bool, searches: bool)
    | File(opens: bool)
    | Link(absolute: bool, target: seq<Name>)

  /** The file system at one moment. */
  type Tree = map<Inode, Node>

  datatype Errno = ELOOP | ENOENT | ENOTDIR | EACCES

  datatype Status = BadRequest | Forbidden | NotFound | Internal

  function NodeOf(fs: Tree, i: Inode): Node {
    if i in fs then fs[i] else File(false)
  }

  // ----- Names in a path -----

  /** The text between the slashes. */
  function Segments(s: string): (segs: seq<Name>)
    ensures |segs| > 0
  {
    if s == "" then [""]
    else
      var rest := Segments(s[1..]);
      if s[0] == '/' then [""] + rest else [[s[0]] + rest[0]] + rest[1..]
  }

  function Joined(segs: seq<Name>): string {
    if segs == [] then "" else if |segs| == 1 then segs[0] else segs[0] + "/" + Joined(segs[1..])
  }

  lemma {:induction false} SegmentsSplit(s: string)
    ensures Joined(Segments(s)) == s
    ensures forall seg | seg in Segments(s) :: '/' !in seg
  {
    if s != "" {
      SegmentsSplit(s[1..]);
      var rest := Segments(s[1..]);
      if s[0] == '/' {
        assert ([""] + rest)[1..] == rest;
        assert Joined([""] + rest) == "" + "/" + Joined(rest);
      } else {
        var first := [s[0]] + rest[0];
        assert rest[0] in rest;
        assert ([first] + rest[1..])[1..] == rest[1..];
        if |rest| > 1 {
          assert Joined([first] + rest[1..]) == [s[0]] + (rest[0] + "/" + Joined(rest[1..]));
        } else {
          assert [first] + rest[1..] == [first];
        }
      }
      assert s == [s[0]] + s[1..];
    }
  }

  /** `Path::components`: empty segments and "." say nothing. */
  function Components(segs: seq<Name>): seq<Name> {
    if segs == [] then [] else Said(segs[0]) + Components(segs[1..])
  }

  function Said(seg: Name): seq<Name> {
    if seg == "" || seg == "." then [] else [seg]
  }

  lemma Regroup(a: seq<Name>, b: seq<Name>, c: seq<Name>)
    ensures a + (b + c) == (a + b) + c
  {
  }

  lemma ComponentsOfOne(seg: Name)
    ensures Components([seg]) == if seg in {"", "."} then [] else [seg]
  {
    assert [seg][1..] == [];
  }

  lemma {:induction false} ComponentsAppend(a: seq<Name>, b: seq<Name>)
    ensures Components(a + b) == Components(a) + Components(b)
  {
    if a == [] {
      assert a + b == b;
    } else {
      ComponentsAppend(a[1..], b);
      assert (a + b)[1..] == a[1..] + b && (a + b)[0] == a[0];
      Regroup(Said(a[0]), Components(a[1..]), Components(b));
    }
  }

  // ----- The walk -----

  /** `openat` with O_NOFOLLOW, and O_DIRECTORY unless the component is the last. */
  function OpenAt(fs: Tree, dir: Inode, name: Name, last: bool): Result<Inode, Errno> {
    match NodeOf(fs, dir)
    case Dir(entries, _, searches) =>
      if !searches then Err(EACCES)
      else if name !in entries then Err(ENOENT)
      else
        (match NodeOf(fs, entries[name])
         case Dir(_, opens, _) => if opens then Ok(entries[name]) else Err(EACCES)
         case File(opens) => if !last then Err(ENOTDIR) else if opens then Ok(entries[name]) else Err(EACCES)
         case Link(_, _) => if last then Err(ELOOP) else Err(ENOTDIR))
    case _ => Err(ENOTDIR)
  }

  function StatusOf(e: Errno): Status {
    match e
    case ELOOP => Forbidden
    case ENOENT => NotFound
    case ENOTDIR => BadRequest
    case EACCES => Internal
  }

  /** The component that is opened while the file system is `times(i)`, and those after it. */
  function Walk(times: nat -> Tree, i: nat, dir: Inode, comps: seq<Name>): Result<Inode, Status>
    decreases |comps|
  {
    if comps == [] then Ok(dir)
    else if '\0' in comps[0] then Err(BadRequest)
    else
      match OpenAt(times(i), dir, comps[0], |comps| == 1)
      case Err(e) => Err(StatusOf(e))
      case Ok(child) => Walk(times, i + 1, child, comps[1..])
  }

  /**
  The walk as a whole: handle k+1 was opened as a real entry, no symbolic link, of the directory behind handle k,
  and all but the last are directories.
  */
  predicate Opened(times: nat -> Tree, i: nat, handles: seq<Inode>, comps: seq<Name>) {
    && |handles| == |comps| + 1
    && forall k | 0 <= k < |comps| :: OpenedOne(times(i + k), handles[k], handles[k + 1], comps[k], k == |comps| - 1)
  }

  predicate OpenedOne(fs: Tree, dir: Inode, child: Inode, name: Name, last: bool) {
    && '\0' !in name
    && Leads(NodeOf(fs, dir), name, child) && Opens(NodeOf(fs, child))
    && (last || NodeOf(fs, child).Dir?)
  }

  /** The name can be looked up in the directory, and is that of the child. */
  predicate Leads(dir: Node, name: Name, child: Inode) {
    dir.Dir? && dir.searches && name in dir.entries && dir.entries[name] == child
  }

  predicate Opens(node: Node) {
    !node.Link? && node.opens
  }

  /** A walk that ends with a handle opened such a chain of handles to it. */
  lemma {:induction false} WalkOpens(times: nat -> Tree, i: nat, dir: Inode, comps: seq<Name>)
    returns (handles: seq<Inode>)
    requires Walk(times, i, dir, comps).Ok?
    ensures Opened(times, i, handles, comps) && handles[0] == dir
    ensures Walk(times, i, dir, comps).value == handles[|comps|]
    decreases |comps|
  {
    if comps == [] {
      handles := [dir];
    } else {
      var rest := WalkOpens(times, i + 1, OpenAt(times(i), dir, comps[0], |comps| == 1).value, comps[1..]);
      handles := [dir] + rest;
      forall k | 0 <= k < |comps|
        ensures OpenedOne(times(i + k), handles[k], handles[k + 1], comps[k], k == |comps| - 1)
      {
        if k > 0 {
          assert OpenedOne(times(i + 1 + (k - 1)), rest[k - 1], rest[k], comps[1..][k - 1], k - 1 == |comps[1..]| - 1);
        }
      }
    }
  }

  /** And wherever there is such a chain, the walk takes it. */
  lemma {:induction false} WalkFollows(times: nat -> Tree, i: nat, handles: seq<Inode>, comps: seq<Name>)
    requires Opened(times, i, handles, comps)
    ensures Walk(times, i, handles[0], comps) == Ok(handles[|comps|])
    decreases |comps|
  {
    if comps != [] {
      assert OpenedOne(times(i + 0), handles[0], handles[1], comps[0], 0 == |comps| - 1);
      OpenedTail(times, i, handles, comps);
      WalkFollows(times, i + 1, handles[1..], comps[1..]);
    }
  }

  /** How a walk that opened its first k components as directories ends if the next one cannot be opened. */
  lemma {:induction false} WalkStops(times: nat -> Tree, i: nat, handles: seq<Inode>, comps: seq<Name>, k: nat)
    requires k < |comps| && |handles| == k + 1 && '\0' !in comps[k]
    requires forall j | 0 <= j < k :: OpenedOne(times(i + j), handles[j], handles[j + 1], comps[j], false)
    requires NodeOf(times(i + k), handles[k]).Dir?
    ensures var (fs, last) := (times(i + k), k == |comps| - 1);
            var (entries, answer) := (NodeOf(fs, handles[k]).entries, Walk(times, i, handles[0], comps));
            if !NodeOf(fs, handles[k]).searches then answer == Err(Internal)
            else if comps[k] !in entries then answer == Err(NotFound)
            else
              match NodeOf(fs, entries[comps[k]])
              case Link(_, _) => answer == Err(if last then Forbidden else BadRequest)
              case File(opens) =>
                answer == if !last then Err(BadRequest) else if opens then Ok(entries[comps[k]]) else Err(Internal)
              case Dir(_, opens, _) =>
                (!opens ==> answer == Err(Internal)) && (opens && last ==> answer == Ok(entries[comps[k]]))
    decreases k
  {
    if k > 0 {
      assert OpenedOne(times(i + 0), handles[0], handles[1], comps[0], false);
      forall j | 0 <= j < k - 1
        ensures OpenedOne(times(i + 1 + j), handles[1..][j], handles[1..][j + 1], comps[1..][j], false)
      {
        assert OpenedOne(times(i + (j + 1)), handles[j + 1], handles[j + 2], comps[j + 1], false);
      }
      assert i + k == i + 1 + (k - 1);
      WalkStops(times, i + 1, handles[1..], comps[1..], k - 1);
    }
  }

  lemma OpenedTail(times: nat -> Tree, i: nat, handles: seq<Inode>, comps: seq<Name>)
    requires comps != [] && Opened(times, i, handles, comps)
    ensures Opened(times, i + 1, handles[1..], comps[1..])
  {
    forall k | 0 <= k < |comps| - 1
      ensures OpenedOne(times(i + 1 + k), handles[1..][k], handles[1..][k + 1], comps[1..][k], k == |comps[1..]| - 1)
    {
      assert OpenedOne(times(i + (k + 1)), handles[k + 1], handles[k + 2], comps[k + 1], k + 1 == |comps| - 1);
    }
  }

  /** A place in the file system: the names and nodes from the root down to it. */
  type Place = seq<(Name, Inode)>

  function Names(at: Place): seq<Name> {
    seq(|at|, i requires 0 <= i < |at| => at[i].0)
  }

  /** `base` is what canonicalizing and opening the base directory gave: its path and the handle. */
  function OpenSpec(times: nat -> Tree, base: Option<(seq<Name>, Inode)>, relative: string)
    : Result<(Inode, seq<Name>), Status>
  {
    var comps := Components(Segments(relative));
    if relative != "" && relative[0] == '/' then Err(Forbidden)
    else if base.None? then Err(Internal)
    else if ".." in comps then Err(Forbidden)
    else if comps == [] then Err(BadRequest)
    else
      match Walk(times, 0, base.value.1, comps)
      case Err(status) => Err(status)
      case Ok(file) => Ok((file, base.value.0 + comps))
  }

  lemma WalkFrom(times: nat -> Tree, i: nat, dir: Inode, comps: seq<Name>)
    requires i < |comps|
    ensures Walk(times, i, dir, comps[i..]) ==
            if '\0' in comps[i] then Err(BadRequest)
            else
              match OpenAt(times(i), dir, comps[i], i == |comps| - 1)
              case Err(e) => Err(StatusOf(e))
              case Ok(child) => Walk(times, i + 1, child, comps[i + 1..])
  {
    assert comps[i..][0] == comps[i] && comps[i..][1..] == comps[i + 1..];
  }

  method OpenNofollowRecursive(times: nat -> Tree, base: Option<(seq<Name>, Inode)>, relative: string)
    returns (r: Result<(Inode, seq<Name>), Status>)
    ensures r == OpenSpec(times, base, relative)
    ensures var (isAbsolute, comps) := (relative != "" && relative[0] == '/', Components(Segments(relative)));
            if isAbsolute then r == Err(Forbidden)
            else if base.None? then r == Err(Internal)
            else if ".." in comps then r == Err(Forbidden)
            else if comps == [] then r == Err(BadRequest)
            else
              match Walk(times, 0, base.value.1, comps)
              case Err(status) => r == Err(status)
              case Ok(file) => r == Ok((file, base.value.0 + comps))
  {
    if relative != "" && relative[0] == '/' {
      return Err(Forbidden);
    }
    if base.None? {
      return Err(Internal);
    }
    var (resolved, dir) := base.value;
    var comps := Components(Segments(relative));
    if ".." in comps {
      return Err(Forbidden);
    }
    if comps == [] {
      return Err(BadRequest);
    }
    r := OpenComponents(times, dir, resolved, comps);
  }

  /** The loop over the components. */
  method OpenComponents(times: nat -> Tree, base: Inode, path: seq<Name>, comps: seq<Name>)
    returns (r: Result<(Inode, seq<Name>), Status>)
    ensures match Walk(times, 0, base, comps)
            case Err(status) => r == Err(status)
            case Ok(file) => r == Ok((file, path + comps))
  {
    var (dir, resolved) := (base, path);
    var i := 0;
    while i < |comps|
      invariant 0 <= i <= |comps|
      invariant resolved == path + comps[..i]
      invariant Walk(times, 0, base, comps) == Walk(times, i, dir, comps[i..])
    {
      WalkFrom(times, i, dir, comps);
      if '\0' in comps[i] {
        return Err(BadRequest);
      }
      match OpenAt(times(i), dir, comps[i], i == |comps| - 1) {
        case Err(e) => return Err(StatusOf(e));
        case Ok(child) =>
          assert comps[..i + 1] == comps[..i] + [comps[i]];
          resolved := resolved + [comps[i]];
          dir := child;
      }
      i := i + 1;
    }
    assert comps[..i] == comps;
    r := Ok((dir, resolved));
  }

  /**
  However the file system changes between the opens: a walk that succeeds opened every normal component of the relative
  path, in order, as a real entry of the directory opened before it, starting with the base, and nothing else.
  */
  lemma WalkIsRooted(times: nat -> Tree, base: Option<(seq<Name>, Inode)>, relative: string)
    returns (handles: seq<Inode>)
    requires OpenSpec(times, base, relative).Ok?
    ensures var comps := Components(Segments(relative));
            && base.Some? && comps != [] && ".." !in comps && !(relative != "" && relative[0] == '/')
            && Opened(times, 0, handles, comps) && handles[0] == base.value.1
            && OpenSpec(times, base, relative).value == (handles[|comps|], base.value.0 + comps)
  {
    handles := WalkOpens(times, 0, base.value.1, Components(Segments(relative)));
  }

  // ----- Resolution that follows links -----

  /** The kernel follows at most this many links in one resolution. */
  const LINKS: nat := 40

  function Top(root: Inode, at: Place): Inode {
    if at == [] then root else at[|at| - 1].1
  }

  /** Where the segments lead from `at`, and how many links may still be followed. */
  function Resolve(fs: Tree, root: Inode, at: Place, segs: seq<Name>, links: nat): Result<(Place, nat), Errno>
    decreases links, |segs|
  {
    if segs == [] then Ok((at, links))
    else
      match NodeOf(fs, Top(root, at))
      case Dir(entries, _, searches) =>
        var name, rest := segs[0], segs[1..];
        if name == "" then Resolve(fs, root, at, rest, links)
        else if !searches then Err(EACCES)
        else if name == "." then Resolve(fs, root, at, rest, links)
        else if name == ".." then Resolve(fs, root, if at == [] then at else at[..|at| - 1], rest, links)
        else if name !in entries then Err(ENOENT)
        else
          (match NodeOf(fs, entries[name])
           case Link(absolute, target) =>
             if links == 0 then Err(ELOOP)
             else Resolve(fs, root, if absolute then [] else at, target + rest, links - 1)
           case _ => Resolve(fs, root, at + [(name, entries[name])], rest, links))
      case _ => Err(ENOTDIR)
  }

  predicate IsPrefix(a: seq<Name>, b: seq<Name>) {
    |a| <= |b| && b[..|a|] == a
  }

  /** `start` is where the base path starts: the root or the working directory. */
  function SafeResolve(fs: Tree, root: Inode, start: Place, base: seq<Name>, relative: string)
    : Result<seq<Name>, Status>
  {
    var isAbsolute := relative != "" && relative[0] == '/';
    var from := if isAbsolute then [] else start;
    var candidate := (if isAbsolute then [] else base) + Segments(relative);
    match Resolve(fs, root, start, base, LINKS)
    case Err(_) => Err(Internal)
    case Ok((canonicalBase, _)) =>
      match CanonicalCandidate(fs, root, from, candidate)
      case Err(status) => Err(status)
      case Ok(path) => if IsPrefix(Names(canonicalBase), path) then Ok(path) else Err(Forbidden)
  }

  /** What exists is resolved as it is; otherwise its parent is, and the file name is appended. */
  function CanonicalCandidate(fs: Tree, root: Inode, from: Place, candidate: seq<Name>): Result<seq<Name>, Status> {
    match Resolve(fs, root, from, candidate, LINKS)
    case Ok((at, _)) => Ok(Names(at))
    case Err(_) =>
      var comps := Components(candidate);
      if comps == [] then Err(Forbidden)
      else
        match Resolve(fs, root, from, comps[..|comps| - 1], LINKS)
        case Err(_) => Err(Forbidden)
        case Ok((parent, _)) =>
          var name := comps[|comps| - 1];
          if name == ".." then Err(Forbidden) else Ok(Names(parent) + [name])
  }

  /**
  When `safe_resolve` accepts, and with which path: either the candidate resolves, and the names of that place are the
  path; or it does not, its last component is not "..", and the path is that component below the place of the others. In
  both cases the path lies under the canonical base. Everything else is forbidden, or the base is not accessible.
  */
  lemma SafeResolveExactly(fs: Tree, root: Inode, start: Place, base: seq<Name>, relative: string, path: seq<Name>)
    ensures var isAbsolute := relative != "" && relative[0] == '/';
            var from := if isAbsolute then [] else start;
            var candidate := if isAbsolute then Segments(relative) else base + Segments(relative);
            var comps := Components(candidate);
            SafeResolve(fs, root, start, base, relative) == Ok(path) <==>
              && Resolve(fs, root, start, base, LINKS).Ok?
              && IsPrefix(Names(Resolve(fs, root, start, base, LINKS).value.0), path)
              && if Resolve(fs, root, from, candidate, LINKS).Ok?
                 then path == Names(Resolve(fs, root, from, candidate, LINKS).value.0)
                 else && comps != [] && comps[|comps| - 1] != ".."
                      && Resolve(fs, root, from, comps[..|comps| - 1], LINKS).Ok?
                      && path == Names(Resolve(fs, root, from, comps[..|comps| - 1], LINKS).value.0)
                         + [comps[|comps| - 1]]
    ensures SafeResolve(fs, root, start, base, relative).Err? ==>
              SafeResolve(fs, root, start, base, relative).error
              == if Resolve(fs, root, start, base, LINKS).Err? then Internal else Forbidden
  {
    assert [] + Segments(relative) == Segments(relative);
  }

  lemma {:induction false} OneSegment(name: Name)
    requires '/' !in name
    ensures Segments(name) == [name]
  {
    if name != "" {
      assert name[0] in name && forall c | c in name[1..] :: c in name;
      OneSegment(name[1..]);
      assert [name[0]] + name[1..] == name;
    }
  }

  /** A new file name in a base directory that may be searched is accepted, as that name in the base. */
  lemma NewNameIsAccepted(fs: Tree, root: Inode, start: Place, base: seq<Name>, name: Name, at: Place, left: nat)
    requires Resolve(fs, root, start, base, LINKS) == Ok((at, left))
    requires var dir := NodeOf(fs, Top(root, at)); dir.Dir? && dir.searches && name !in dir.entries
    requires '/' !in name && name !in {"", ".", ".."}
    ensures SafeResolve(fs, root, start, base, name) == Ok(Names(at) + [name])
  {
    OneSegment(name);
    ComponentsOfOne(name);
    ComponentsAppend(base, [name]);
    NewNameDoesNotResolve(fs, root, start, base, name, at, left);
    BaseResolves(fs, root, start, base, at, left);
    WithoutLast(Components(base), [name]);
    assert Components(base) + [name][..0] == Components(base);
    SafeResolveExactly(fs, root, start, base, name, Names(at) + [name]);
  }

  lemma NewNameDoesNotResolve(fs: Tree, root: Inode, start: Place, base: seq<Name>, name: Name, at: Place, left: nat)
    requires Resolve(fs, root, start, base, LINKS) == Ok((at, left))
    requires var dir := NodeOf(fs, Top(root, at)); dir.Dir? && dir.searches && name !in dir.entries
    requires name !in {"", ".", ".."}
    ensures Resolve(fs, root, start, base + [name], LINKS).Err?
  {
    ResolveAppend(fs, root, start, base, [name], LINKS);
  }

  lemma BaseResolves(fs: Tree, root: Inode, start: Place, base: seq<Name>, at: Place, left: nat)
    requires Resolve(fs, root, start, base, LINKS) == Ok((at, left))
    ensures Resolve(fs, root, start, Components(base), LINKS) == Ok((at, left))
  {
    assert [] + base == base && [] + Components(base) == Components(base);
    ResolveComponents(fs, root, start, [], base, LINKS);
  }

  /** The place is what its names say: each step down is a real entry of the directory above. */
  predicate Real(fs: Tree, root: Inode, at: Place) {
    forall k | 0 <= k < |at| :: RealAt(fs, root, at, k)
  }

  predicate RealAt(fs: Tree, root: Inode, at: Place, k: nat)
    requires k < |at|
  {
    RealEntry(fs, Top(root, at[..k]), at[k])
  }

  predicate RealEntry(fs: Tree, dir: Inode, step: (Name, Inode)) {
    Leads(NodeOf(fs, dir), step.0, step.1) && !NodeOf(fs, step.1).Link?
  }

  lemma RealSnoc(fs: Tree, root: Inode, at: Place, step: (Name, Inode))
    requires Real(fs, root, at) && RealEntry(fs, Top(root, at), step)
    ensures Real(fs, root, at + [step])
  {
    forall k | 0 <= k < |at| + 1 ensures RealAt(fs, root, at + [step], k) {
      assert (at + [step])[..k] == at[..k];
      if k == |at| {
        assert at[..k] == at;
      } else {
        assert RealAt(fs, root, at, k);
      }
    }
  }

  lemma RealInit(fs: Tree, root: Inode, at: Place)
    requires Real(fs, root, at) && at != []
    ensures Real(fs, root, at[..|at| - 1]) && RealEntry(fs, Top(root, at[..|at| - 1]), at[|at| - 1])
  {
    var init := at[..|at| - 1];
    assert RealAt(fs, root, at, |at| - 1);
    forall k | 0 <= k < |init| ensures RealAt(fs, root, init, k) {
      assert init[..k] == at[..k];
      assert RealAt(fs, root, at, k);
    }
  }

  /** Resolution ends at a real place, whatever links it followed. */
  lemma {:induction false} ResolvesToReal(fs: Tree, root: Inode, at: Place, segs: seq<Name>, links: nat)
    requires Real(fs, root, at) && Resolve(fs, root, at, segs, links).Ok?
    ensures Real(fs, root, Resolve(fs, root, at, segs, links).value.0)
    decreases links, |segs|
  {
    if segs != [] {
      var name, rest := segs[0], segs[1..];
      var entries := NodeOf(fs, Top(root, at)).entries;
      if name == "" || name == "." {
        ResolvesToReal(fs, root, at, rest, links);
      } else if name == ".." {
        if at != [] {
          RealInit(fs, root, at);
        }
        ResolvesToReal(fs, root, if at == [] then at else at[..|at| - 1], rest, links);
      } else {
        match NodeOf(fs, entries[name])
        case Link(absolute, target) =>
          ResolvesToReal(fs, root, if absolute then [] else at, target + rest, links - 1);
        case _ =>
          RealSnoc(fs, root, at, (name, entries[name]));
          ResolvesToReal(fs, root, at + [(name, entries[name])], rest, links);
      }
    }
  }

  /** A real place is determined by its names. */
  lemma {:induction false} RealIsUnique(fs: Tree, root: Inode, a: Place, b: Place)
    requires Real(fs, root, a) && Real(fs, root, b) && Names(a) == Names(b)
    ensures a == b
  {
    assert |Names(a)| == |Names(b)|;
    if a != [] {
      var n := |a| - 1;
      RealInit(fs, root, a);
      RealInit(fs, root, b);
      assert Names(a[..n]) == Names(a)[..n] && Names(b[..n]) == Names(b)[..n];
      RealIsUnique(fs, root, a[..n], b[..n]);
      assert Names(a)[n] == Names(b)[n];
      assert a == a[..n] + [a[n]] && b == b[..n] + [b[n]];
    }
  }

  /**
  What `safe_resolve` accepts lies under the canonical base, and all of it but possibly the file name is a real
  place: no link is left in the path above the file name.
  */
  lemma SafeResolveIsInside(fs: Tree, root: Inode, start: Place, base: seq<Name>, relative: string) returns (at: Place)
    requires Real(fs, root, start) && SafeResolve(fs, root, start, base, relative).Ok?
    ensures Resolve(fs, root, start, base, LINKS).Ok?
    ensures var path := SafeResolve(fs, root, start, base, relative).value;
            && IsPrefix(Names(Resolve(fs, root, start, base, LINKS).value.0), path)
            && Real(fs, root, at)
            && (Names(at) == path || (path != [] && Names(at) == path[..|path| - 1]))
  {
    var isAbsolute := relative != "" && relative[0] == '/';
    var from := if isAbsolute then [] else start;
    var candidate := (if isAbsolute then [] else base) + Segments(relative);
    if Resolve(fs, root, from, candidate, LINKS).Ok? {
      ResolvesToReal(fs, root, from, candidate, LINKS);
      at := Resolve(fs, root, from, candidate, LINKS).value.0;
    } else {
      var comps := Components(candidate);
      ResolvesToReal(fs, root, from, comps[..|comps| - 1], LINKS);
      at := Resolve(fs, root, from, comps[..|comps| - 1], LINKS).value.0;
    }
  }

  // ----- The walk on a tree that nobody changes -----

  function Still(fs: Tree): nat -> Tree {
    (_: nat) => fs
  }

  predicate Plain(comps: seq<Name>) {
    forall name | name in comps :: name != "" && name != "." && name != ".."
  }

  lemma {:induction false} ComponentsArePlain(segs: seq<Name>)
    requires ".." !in Components(segs)
    ensures Plain(Components(segs))
  {
    if segs != [] {
      assert Components(segs) == Said(segs[0]) + Components(segs[1..]);
      ComponentsArePlain(segs[1..]);
    }
  }

  predicate OpensAt(fs: Tree, root: Inode, to: Place, k: nat)
    requires k <= |to|
  {
    Opens(NodeOf(fs, Top(root, to[..k])))
  }

  /** Everything on the way to the place, from depth n on, can be opened. */
  predicate OpensBelow(fs: Tree, root: Inode, n: nat, to: Place) {
    forall k | n < k <= |to| :: OpensAt(fs, root, to, k)
  }

  /** What the walk opens, resolution finds too, without following a link. */
  lemma {:induction false} WalkResolves(fs: Tree, root: Inode, at: Place, comps: seq<Name>, i: nat, links: nat)
    returns (to: Place)
    requires Plain(comps) && Walk(Still(fs), i, Top(root, at), comps).Ok?
    ensures Resolve(fs, root, at, comps, links) == Ok((to, links))
    ensures Names(to) == Names(at) + comps && Top(root, to) == Walk(Still(fs), i, Top(root, at), comps).value
    decreases |comps|
  {
    if comps == [] {
      to := at;
    } else {
      var child := OpenAt(fs, Top(root, at), comps[0], |comps| == 1).value;
      assert Still(fs)(i) == fs && comps[0] in comps && forall name | name in comps[1..] :: name in comps;
      to := WalkResolves(fs, root, at + [(comps[0], child)], comps[1..], i + 1, links);
      assert Names(at + [(comps[0], child)]) == Names(at) + [comps[0]];
      assert Names(to) == Names(at) + ([comps[0]] + comps[1..]);
      assert comps == [comps[0]] + comps[1..];
    }
  }

  lemma {:induction false} WalkOpensAll(fs: Tree, root: Inode, at: Place, comps: seq<Name>, i: nat, links: nat,
    to: Place)
    requires Plain(comps) && Walk(Still(fs), i, Top(root, at), comps).Ok?
    requires Resolve(fs, root, at, comps, links) == Ok((to, links))
    ensures |at| <= |to| && to[..|at|] == at && OpensBelow(fs, root, |at|, to)
    decreases |comps|
  {
    if comps != [] {
      var child := OpenAt(fs, Top(root, at), comps[0], |comps| == 1).value;
      var next := at + [(comps[0], child)];
      assert Still(fs)(i) == fs && comps[0] in comps && forall name | name in comps[1..] :: name in comps;
      WalkOpensAll(fs, root, next, comps[1..], i + 1, links, to);
      assert next[..|at|] == at && to[..|at|] == to[..|next|][..|at|];
      assert OpensAt(fs, root, to, |next|);
    }
  }

  /** Segments that say nothing can be left out of a path that resolves. */
  lemma {:induction false} ResolveComponents(fs: Tree, root: Inode, at: Place, pre: seq<Name>, segs: seq<Name>,
    links: nat)
    requires Resolve(fs, root, at, pre + segs, links).Ok?
    ensures Resolve(fs, root, at, pre + Components(segs), links) == Resolve(fs, root, at, pre + segs, links)
    decreases links, |pre| + |segs|, 0
  {
    if pre == [] && segs != [] && (segs[0] == "" || segs[0] == ".") {
      assert pre + segs == segs && pre + Components(segs) == [] + Components(segs[1..]) && [] + segs[1..] == segs[1..];
      assert Resolve(fs, root, at, segs, links) == Resolve(fs, root, at, segs[1..], links);
      ResolveComponents(fs, root, at, [], segs[1..], links);
    } else if pre == [] && segs != [] {
      assert [segs[0]] + ([] + segs[1..]) == pre + segs;
      assert pre + Components(segs) == [segs[0]] + ([] + Components(segs[1..]));
      ResolveStep(fs, root, at, segs[0], [], segs[1..], links);
    } else if pre != [] {
      assert [pre[0]] + (pre[1..] + segs) == pre + segs
             && [pre[0]] + (pre[1..] + Components(segs)) == pre + Components(segs);
      ResolveStep(fs, root, at, pre[0], pre[1..], segs, links);
    }
  }

  lemma {:induction false} ResolveStep(fs: Tree, root: Inode, at: Place, name: Name, pre: seq<Name>, segs: seq<Name>,
    links: nat)
    requires Resolve(fs, root, at, [name] + (pre + segs), links).Ok?
    ensures Resolve(fs, root, at, [name] + (pre + Components(segs)), links)
            == Resolve(fs, root, at, [name] + (pre + segs), links)
    decreases links, |pre| + |segs|, 1
  {
    var (rest, short) := (pre + segs, pre + Components(segs));
    assert ([name] + rest)[1..] == rest && ([name] + short)[1..] == short;
    var entries := NodeOf(fs, Top(root, at)).entries;
    if name == "" || name == "." {
      ResolveComponents(fs, root, at, pre, segs, links);
    } else if name == ".." {
      ResolveComponents(fs, root, if at == [] then at else at[..|at| - 1], pre, segs, links);
    } else {
      match NodeOf(fs, entries[name])
      case Link(absolute, target) =>
        assert target + rest == (target + pre) + segs && target + short == (target + pre) + Components(segs);
        ResolveComponents(fs, root, if absolute then [] else at, target + pre, segs, links - 1);
      case _ => ResolveComponents(fs, root, at + [(name, entries[name])], pre, segs, links);
    }
  }

  lemma {:induction false} ResolveAppend(fs: Tree, root: Inode, at: Place, a: seq<Name>, b: seq<Name>, links: nat)
    requires Resolve(fs, root, at, a, links).Ok?
    ensures var (to, left) := Resolve(fs, root, at, a, links).value;
            Resolve(fs, root, at, a + b, links) == Resolve(fs, root, to, b, left)
    decreases links, |a|
  {
    if a == [] {
      assert a + b == b;
    } else {
      var name, rest := a[0], a[1..];
      assert (a + b)[0] == name && (a + b)[1..] == rest + b;
      var entries := NodeOf(fs, Top(root, at)).entries;
      if name == "" || name == "." {
        ResolveAppend(fs, root, at, rest, b, links);
      } else if name == ".." {
        ResolveAppend(fs, root, if at == [] then at else at[..|at| - 1], rest, b, links);
      } else {
        match NodeOf(fs, entries[name])
        case Link(absolute, target) =>
          assert target + (rest + b) == (target + rest) + b;
          ResolveAppend(fs, root, if absolute then [] else at, target + rest, b, links - 1);
        case _ => ResolveAppend(fs, root, at + [(name, entries[name])], rest, b, links);
      }
    }
  }

  lemma {:induction false} WalkInit(fs: Tree, dir: Inode, comps: seq<Name>, i: nat)
    requires comps != [] && Walk(Still(fs), i, dir, comps).Ok?
    ensures Walk(Still(fs), i, dir, comps[..|comps| - 1]).Ok?
    decreases |comps|
  {
    if |comps| > 1 {
      var init := comps[..|comps| - 1];
      var child := OpenAt(fs, dir, comps[0], false).value;
      assert Still(fs)(i) == fs;
      WalkInit(fs, child, comps[1..], i + 1);
      assert init[1..] == comps[1..][..|comps[1..]| - 1] && init[0] == comps[0];
      assert OpenAt(fs, dir, comps[0], true) == Ok(child);
    }
  }

  /** A base path followed by components that the walk opens leads where they spell out. */
  lemma BaseThenComponents(fs: Tree, root: Inode, start: Place, base: seq<Name>, comps: seq<Name>, at: Place, left: nat)
    returns (to: Place)
    requires Resolve(fs, root, start, base, LINKS) == Ok((at, left))
    requires Plain(comps) && Walk(Still(fs), 0, Top(root, at), comps).Ok?
    ensures Resolve(fs, root, start, Components(base) + comps, LINKS) == Ok((to, left))
            && Names(to) == Names(at) + comps
  {
    BaseResolves(fs, root, start, base, at, left);
    ResolveAppend(fs, root, start, Components(base), comps, LINKS);
    to := WalkResolves(fs, root, at, comps, 0, left);
  }

  lemma CandidateThere(fs: Tree, root: Inode, start: Place, base: seq<Name>, segs: seq<Name>, at: Place, left: nat)
    requires Resolve(fs, root, start, base, LINKS) == Ok((at, left)) && Resolve(fs, root, start, base + segs, LINKS).Ok?
    requires Plain(Components(segs)) && Walk(Still(fs), 0, Top(root, at), Components(segs)).Ok?
    ensures CanonicalCandidate(fs, root, start, base + segs) == Ok(Names(at) + Components(segs))
  {
    var candidate := base + segs;
    ComponentsAppend(base, segs);
    assert [] + candidate == candidate && [] + Components(candidate) == Components(candidate);
    ResolveComponents(fs, root, start, [], candidate, LINKS);
    var to := BaseThenComponents(fs, root, start, base, Components(segs), at, left);
  }

  lemma WithoutLast(a: seq<Name>, b: seq<Name>)
    requires b != []
    ensures (a + b)[..|a + b| - 1] == a + b[..|b| - 1] && (a + b)[|a + b| - 1] == b[|b| - 1]
  {
  }

  lemma ParentResolves(fs: Tree, root: Inode, start: Place, base: seq<Name>, comps: seq<Name>, at: Place, left: nat)
    returns (to: Place)
    requires Resolve(fs, root, start, base, LINKS) == Ok((at, left))
    requires comps != [] && Plain(comps) && Walk(Still(fs), 0, Top(root, at), comps).Ok?
    ensures Resolve(fs, root, start, Components(base) + comps[..|comps| - 1], LINKS) == Ok((to, left))
    ensures Names(to) + [comps[|comps| - 1]] == Names(at) + comps && comps[|comps| - 1] != ".."
  {
    var n := |comps| - 1;
    WalkInit(fs, Top(root, at), comps, 0);
    assert comps[n] in comps && forall name | name in comps[..n] :: name in comps;
    to := BaseThenComponents(fs, root, start, base, comps[..n], at, left);
    assert Names(to) + [comps[n]] == Names(at) + (comps[..n] + [comps[n]]);
    assert comps == comps[..n] + [comps[n]];
  }

  /**
  A path that names a file and goes on with "/" or "/." does not resolve; then its file name is appended to its
  parent.
  */
  lemma ParentThere(fs: Tree, root: Inode, start: Place, base: seq<Name>, segs: seq<Name>, at: Place, left: nat)
    requires Resolve(fs, root, start, base, LINKS) == Ok((at, left))
             && Resolve(fs, root, start, base + segs, LINKS).Err?
    requires Components(segs) != [] && Plain(Components(segs))
             && Walk(Still(fs), 0, Top(root, at), Components(segs)).Ok?
    ensures CanonicalCandidate(fs, root, start, base + segs) == Ok(Names(at) + Components(segs))
  {
    var to := ParentResolves(fs, root, start, base, Components(segs), at, left);
    ComponentsAppend(base, segs);
    WithoutLast(Components(base), Components(segs));
  }

  /** On a tree that nobody changes, `safe_resolve` names the file that the walk opens by the same path. */
  lemma SameOnStillTree(fs: Tree, root: Inode, start: Place, base: seq<Name>, relative: string, at: Place, left: nat)
    requires Resolve(fs, root, start, base, LINKS) == Ok((at, left))
    requires OpenSpec(Still(fs), Some((Names(at), Top(root, at))), relative).Ok?
    ensures SafeResolve(fs, root, start, base, relative)
            == Ok(OpenSpec(Still(fs), Some((Names(at), Top(root, at))), relative).value.1)
  {
    var segs := Segments(relative);
    ComponentsArePlain(segs);
    if Resolve(fs, root, start, base + segs, LINKS).Ok? {
      CandidateThere(fs, root, start, base, segs, at, left);
    } else {
      ParentThere(fs, root, start, base, segs, at, left);
    }
  }

  lemma NamesPrefix(at: Place, n: nat)
    requires n <= |at|
    ensures Names(at[..n]) == Names(at)[..n]
  {
  }

  /**
  On a tree that nobody changes, the walk succeeds exactly when resolution that follows links ends at the place the
  components spell out, so that there was no link to follow, and everything on the way there can be opened.
  */
  lemma WalksWhereNoLinkIs(fs: Tree, root: Inode, at: Place, comps: seq<Name>, links: nat)
    requires Real(fs, root, at) && Plain(comps) && comps != [] && forall name | name in comps :: '\0' !in name
    ensures Walk(Still(fs), 0, Top(root, at), comps).Ok? <==>
            match Resolve(fs, root, at, comps, links)
            case Ok((to, _)) => Names(to) == Names(at) + comps && OpensBelow(fs, root, |at|, to)
            case Err(_) => false
  {
    if Walk(Still(fs), 0, Top(root, at), comps).Ok? {
      var to := WalkResolves(fs, root, at, comps, 0, links);
      WalkOpensAll(fs, root, at, comps, 0, links, to);
    } else if Resolve(fs, root, at, comps, links).Ok? {
      var to := Resolve(fs, root, at, comps, links).value.0;
      if Names(to) == Names(at) + comps && OpensBelow(fs, root, |at|, to) {
        ResolvesToReal(fs, root, at, comps, links);
        RealPlaceIsWalked(fs, root, at, comps, to);
      }
    }
  }

  lemma RealPlaceIsWalked(fs: Tree, root: Inode, at: Place, comps: seq<Name>, to: Place)
    requires Real(fs, root, at) && Real(fs, root, to) && Names(to) == Names(at) + comps
             && OpensBelow(fs, root, |at|, to)
    requires comps != [] && forall name | name in comps :: '\0' !in name
    ensures Walk(Still(fs), 0, Top(root, at), comps).Ok?
  {
    var n := |at|;
    assert |Names(to)| == n + |comps| && |Names(at)| == n;
    forall k | 0 <= k < n ensures RealAt(fs, root, to[..n], k) {
      assert RealAt(fs, root, to, k) && to[..n][..k] == to[..k];
    }
    NamesPrefix(to, n);
    RealIsUnique(fs, root, to[..n], at);
    var handles := seq<Inode>(|comps| + 1, (k: nat) requires k <= |comps| => Top(root, to[..n + k]));
    forall k | 0 <= k < |comps|
      ensures OpenedOne(Still(fs)(0 + k), handles[k], handles[k + 1], comps[k], k == |comps| - 1)
    {
      assert RealAt(fs, root, to, n + k);
      assert Names(to)[n + k] == comps[k] && comps[k] in comps;
      assert OpensAt(fs, root, to, n + (k + 1));
      if k + 1 < |comps| {
        assert RealAt(fs, root, to, n + (k + 1));
      } else {
        assert to[..n + (k + 1)] == to;
      }
    }
    WalkFollows(Still(fs), 0, handles, comps);
  }
}
