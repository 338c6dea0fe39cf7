/**
The file upload of `src/server/files.rs`: each part of a multipart request is streamed to a temporary file and
renamed into place. A path is either a target, named by what `safe_resolve` made of the file name, or a temporary
file, named by its fresh UUID.
*/
module Upload {
  import opened Wrappers
  import opened Utf8

  type Name = nat

  type Tmp = nat

  datatype Status = BadRequest | Forbidden | Conflict | TooLarge | Internal | NotFound

  datatype Response = Response(filename: Name, size: nat)

  /** What the network and the disk do to one part is data of the request. */
  datatype Event = Chunk(data: seq<byte>, written: bool) | Broken

  datatype Part =
    | Garbled
    | NotAFile
    | BadName(status: Status)
    | File(filename: Name, target: Name, creates: bool, stream: seq<Event>, flushes: bool, renames: bool)

  /** `resolveError`: the base directory could not be named; `baseError`: it could not be created or is not writable. */
  datatype Request = Request(
    resolveError: Option<Status>,
    contentLength: Option<nat>,
    baseError: Option<Status>,
    overwrite: bool,
    parts: seq<Part>)

  // ----- One part -----

  function Payload(e: Event): seq<byte> {
    if e.Chunk? then e.data else []
  }

  function Data(stream: seq<Event>): seq<byte> {
    if stream == [] then [] else Payload(stream[0]) + Data(stream[1..])
  }

  predicate Undisturbed(stream: seq<Event>) {
    forall e | e in stream :: e.Chunk? && e.written
  }

  /** The streaming loop, after `got` was written to the temporary file. */
  function Receive(stream: seq<Event>, max: nat, got: seq<byte>): Result<seq<byte>, Status> {
    if stream == [] then Ok(got)
    else
      match stream[0]
      case Broken => Err(BadRequest)
      case Chunk(data, written) =>
        if |got| + |data| > max then Err(TooLarge)
        else if !written then Err(Internal)
        else Receive(stream[1..], max, got + data)
  }

  /** A part is received exactly when nothing failed and its total size is within the limit, whole and in order. */
  lemma {:induction false} ReceivesExactly(stream: seq<Event>, max: nat, got: seq<byte>)
    requires |got| <= max
    ensures Receive(stream, max, got).Ok? <==> Undisturbed(stream) && |got| + |Data(stream)| <= max
    ensures Receive(stream, max, got).Ok? ==> Receive(stream, max, got).value == got + Data(stream)
  {
    if stream != [] {
      assert stream == [stream[0]] + stream[1..];
      if stream[0].Chunk? && |got| + |stream[0].data| <= max {
        ReceivesExactly(stream[1..], max, got + stream[0].data);
      }
    }
  }

  /** What became of a part: the content to put under its target, or the error to answer with. */
  function Land(targets: map<Name, seq<byte>>, overwrite: bool, part: Part, max: nat): Result<seq<byte>, Status>
    requires part.File?
  {
    if !overwrite && part.target in targets then Err(Conflict)
    else if !part.creates then Err(Internal)
    else
      match Receive(part.stream, max, [])
      case Err(e) => Err(e)
      case Ok(content) => if part.flushes && part.renames then Ok(content) else Err(Internal)
  }

  datatype Outcome = Outcome(targets: map<Name, seq<byte>>, answer: Result<Response, Status>)

  /** The parts one after the other; `uploaded` is the last file so far. */
  function ServeParts(targets: map<Name, seq<byte>>, overwrite: bool, parts: seq<Part>, max: nat,
    uploaded: Option<Response>): Outcome
    decreases |parts|
  {
    if parts == [] then Outcome(targets, if uploaded.Some? then Ok(uploaded.value) else Err(BadRequest))
    else
      match parts[0]
      case Garbled => Outcome(targets, Err(BadRequest))
      case NotAFile => ServeParts(targets, overwrite, parts[1..], max, uploaded)
      case BadName(status) => Outcome(targets, Err(status))
      case File(filename, target, _, _, _, _) =>
        match Land(targets, overwrite, parts[0], max)
        case Err(e) => Outcome(targets, Err(e))
        case Ok(content) =>
          ServeParts(targets[target := content], overwrite, parts[1..], max, Some(Response(filename, |content|)))
  }

  /** What is answered before the body is read. */
  function Early(request: Request, max: nat): Option<Status> {
    if request.resolveError.Some? then request.resolveError
    else if request.contentLength.Some? && request.contentLength.value > max then Some(TooLarge)
    else request.baseError
  }

  function Serve(targets: map<Name, seq<byte>>, request: Request, max: nat): Outcome {
    match Early(request, max)
    case Some(status) => Outcome(targets, Err(status))
    case None => ServeParts(targets, request.overwrite, request.parts, max, None)
  }

  // ----- What a request comes to -----

  /** The response that the first `k` parts earn. */
  function Earned(request: Request, k: nat): Option<Response>
    requires k <= |request.parts|
  {
    if k == 0 then None
    else if request.parts[k - 1].File?
      then Some(Response(request.parts[k - 1].filename, |Data(request.parts[k - 1].stream)|))
    else Earned(request, k - 1)
  }

  /** The part can be passed: nothing disturbed it and it is within the limit. */
  predicate Passes(part: Part, max: nat) {
    match part
    case NotAFile => true
    case File(_, _, creates, stream, flushes, renames) =>
      creates && Undisturbed(stream) && |Data(stream)| <= max && flushes && renames
    case _ => false
  }

  predicate Passed(request: Request, k: nat, max: nat)
    requires k <= |request.parts|
  {
    forall j | 0 <= j < k :: Passes(request.parts[j], max)
  }

  /** The targets after the first `k` parts put their files in place. */
  function Landed(targets: map<Name, seq<byte>>, parts: seq<Part>, k: nat): map<Name, seq<byte>>
    requires k <= |parts|
  {
    if k == 0 then targets
    else
      var (before, part) := (Landed(targets, parts, k - 1), parts[k - 1]);
      if part.File? then before[part.target := Data(part.stream)] else before
  }

  /** The part's name may be taken: it is free, or files may be overwritten. */
  predicate MayLand(targets: map<Name, seq<byte>>, request: Request, k: nat)
    requires k < |request.parts|
  {
    request.parts[k].File? && !request.overwrite ==> request.parts[k].target !in Landed(targets, request.parts, k)
  }

  /** The first `k` parts go through. */
  predicate GoThrough(targets: map<Name, seq<byte>>, request: Request, max: nat, k: nat)
    requires k <= |request.parts|
  {
    forall j | 0 <= j < k :: Passes(request.parts[j], max) && MayLand(targets, request, j)
  }

  predicate HasFile(parts: seq<Part>) {
    exists k :: 0 <= k < |parts| && parts[k].File?
  }

  /** The index of the event at which receiving stops: everything before it was received. */
  predicate StopsAt(stream: seq<Event>, max: nat, i: nat, status: Status)
    requires i < |stream|
  {
    && Undisturbed(stream[..i]) && |Data(stream[..i])| <= max
    && match stream[i]
       case Broken => status == BadRequest
       case Chunk(data, written) =>
         if |Data(stream[..i])| + |data| > max then status == TooLarge else !written && status == Internal
  }

  /** Why a part does not go through. */
  predicate Fails(part: Part, taken: bool, max: nat, status: Status) {
    match part
    case Garbled => status == BadRequest
    case NotAFile => false
    case BadName(bad) => status == bad
    case File(_, _, creates, stream, flushes, renames) =>
      if taken then status == Conflict
      else if !creates then status == Internal
      else if Undisturbed(stream) && |Data(stream)| <= max then !(flushes && renames) && status == Internal
      else exists i :: 0 <= i < |stream| && StopsAt(stream, max, i, status)
  }

  lemma {:induction false} StopsSomewhere(stream: seq<Event>, max: nat, got: seq<byte>) returns (i: nat)
    requires |got| <= max && Receive(stream, max, got).Err?
    ensures i < |stream| && Undisturbed(stream[..i]) && |got| + |Data(stream[..i])| <= max
    ensures match stream[i]
            case Broken => Receive(stream, max, got).error == BadRequest
            case Chunk(data, written) =>
              if |got| + |Data(stream[..i])| + |data| > max then Receive(stream, max, got).error == TooLarge
              else !written && Receive(stream, max, got).error == Internal
  {
    if stream[0].Chunk? && |got| + |stream[0].data| <= max && stream[0].written {
      var rest := StopsSomewhere(stream[1..], max, got + stream[0].data);
      i := rest + 1;
      OneMoreFirst(stream, rest);
    } else {
      i := 0;
    }
  }

  lemma OneMoreFirst(stream: seq<Event>, n: nat)
    requires n < |stream| && stream[0].Chunk? && stream[0].written && Undisturbed(stream[1..][..n])
    ensures Undisturbed(stream[..n + 1]) && Data(stream[..n + 1]) == stream[0].data + Data(stream[1..][..n])
  {
    var s := stream[..n + 1];
    assert s[0] == stream[0] && s[1..] == stream[1..][..n];
    assert s == [s[0]] + s[1..];
  }

  /** A part lands exactly if its name may be taken and nothing is wrong with it, with all its bytes. */
  lemma LandsExactly(targets: map<Name, seq<byte>>, overwrite: bool, part: Part, max: nat)
    requires part.File?
    ensures var taken := !overwrite && part.target in targets;
            match Land(targets, overwrite, part, max)
            case Ok(content) => !taken && Passes(part, max) && content == Data(part.stream)
            case Err(status) => !(!taken && Passes(part, max)) && Fails(part, taken, max, status)
  {
    ReceivesExactly(part.stream, max, []);
    assert [] + Data(part.stream) == Data(part.stream);
    if !(!overwrite && part.target in targets) && part.creates && Receive(part.stream, max, []).Err? {
      var i := StopsSomewhere(part.stream, max, []);
      assert StopsAt(part.stream, max, i, Receive(part.stream, max, []).error);
    }
  }

  /** Parts that go through leave the rest to be served. */
  lemma {:induction false} ServesOn(targets: map<Name, seq<byte>>, request: Request, max: nat, k: nat)
    requires k <= |request.parts| && GoThrough(targets, request, max, k)
    ensures ServeParts(targets, request.overwrite, request.parts, max, None)
            == ServeParts(Landed(targets, request.parts, k), request.overwrite, request.parts[k..], max,
              Earned(request, k))
  {
    if k == 0 {
      assert request.parts[0..] == request.parts;
    } else {
      ServesOn(targets, request, max, k - 1);
      var rest := request.parts[k - 1..];
      assert rest[0] == request.parts[k - 1] && rest[1..] == request.parts[k..];
      assert Passes(request.parts[k - 1], max) && MayLand(targets, request, k - 1);
      if request.parts[k - 1].File? {
        LandsExactly(Landed(targets, request.parts, k - 1), request.overwrite, request.parts[k - 1], max);
      }
    }
  }

  lemma {:induction false} EarnsWithFile(request: Request, k: nat)
    requires k <= |request.parts|
    ensures Earned(request, k).Some? <==> HasFile(request.parts[..k])
  {
    if k > 0 {
      EarnsWithFile(request, k - 1);
      var (before, upto) := (request.parts[..k - 1], request.parts[..k]);
      assert upto[k - 1] == request.parts[k - 1];
      if j :| 0 <= j < |before| && before[j].File? {
        assert upto[j].File?;
      }
      if j :| 0 <= j < |upto| && upto[j].File? && j < k - 1 {
        assert before[j].File?;
      }
    }
  }

  /**
  A request is answered with success exactly if its base directory can be named and used, its declared length is within
  the limit, every part goes through and there is a file; then all its files are in place, and the last one is reported.
  */
  lemma ServesExactly(targets: map<Name, seq<byte>>, request: Request, max: nat)
    ensures Serve(targets, request, max).answer.Ok? <==>
              && request.resolveError.None? && request.baseError.None?
              && (request.contentLength.Some? ==> request.contentLength.value <= max)
              && (forall k | 0 <= k < |request.parts| :: Passes(request.parts[k], max) && MayLand(targets, request, k))
              && HasFile(request.parts)
    ensures Serve(targets, request, max).answer.Ok? ==>
              && Serve(targets, request, max).targets == Landed(targets, request.parts, |request.parts|)
              && Earned(request, |request.parts|) == Some(Serve(targets, request, max).answer.value)
  {
    var n := |request.parts|;
    if GoThrough(targets, request, max, n) {
      ServesOn(targets, request, max, n);
      EarnsWithFile(request, n);
      assert request.parts[n..] == [] && request.parts[..n] == request.parts;
    } else if Early(request, max).None? {
      var k := FirstToFail(targets, request, max);
      PartFails(targets, request, max, k);
    }
  }

  lemma FirstToFail(targets: map<Name, seq<byte>>, request: Request, max: nat) returns (k: nat)
    requires !GoThrough(targets, request, max, |request.parts|)
    ensures k < |request.parts| && GoThrough(targets, request, max, k)
    ensures !(Passes(request.parts[k], max) && MayLand(targets, request, k))
  {
    k := 0;
    while Passes(request.parts[k], max) && MayLand(targets, request, k)
      invariant k < |request.parts| && GoThrough(targets, request, max, k)
      decreases |request.parts| - k
    {
      k := k + 1;
      if k == |request.parts| {
        assert false;
      }
    }
  }

  /** A request whose part k is the first that does not go through is answered with that part's error. */
  lemma PartFails(targets: map<Name, seq<byte>>, request: Request, max: nat, k: nat)
    requires k < |request.parts| && GoThrough(targets, request, max, k)
    requires !(Passes(request.parts[k], max) && MayLand(targets, request, k))
    ensures var outcome := ServeParts(targets, request.overwrite, request.parts, max, None);
            && outcome.targets == Landed(targets, request.parts, k) && outcome.answer.Err?
            && Fails(request.parts[k], request.parts[k].File?
               && !MayLand(targets, request, k), max, outcome.answer.error)
  {
    ServesOn(targets, request, max, k);
    assert request.parts[k..][0] == request.parts[k];
    if request.parts[k].File? {
      LandsExactly(Landed(targets, request.parts, k), request.overwrite, request.parts[k], max);
    }
  }

  /**
  Every refusal has its reason, in this order: the base directory cannot be named, the declared length is over the
  limit,
  the base directory cannot be used, all before the body is read; then the first part that does not go through, with
  the files of the parts before it in place; and a request without a file.
  */
  lemma RefusesWithReason(targets: map<Name, seq<byte>>, request: Request, max: nat)
    requires Serve(targets, request, max).answer.Err?
    ensures var (outcome, parts) := (Serve(targets, request, max), request.parts);
            var status := outcome.answer.error;
            if request.resolveError.Some? then outcome.targets == targets && status == request.resolveError.value
            else if request.contentLength.Some? && request.contentLength.value > max then
              outcome.targets == targets && status == TooLarge
            else if request.baseError.Some? then outcome.targets == targets && status == request.baseError.value
            else if GoThrough(targets, request, max, |parts|) then
              !HasFile(parts) && outcome.targets == targets && status == BadRequest
            else
              exists k :: 0 <= k < |parts| && GoThrough(targets, request, max, k)
                          && Fails(parts[k], parts[k].File? && !MayLand(targets, request, k), max, status)
                          && outcome.targets == Landed(targets, parts, k)
  {
    if Early(request, max).None? {
      if GoThrough(targets, request, max, |request.parts|) {
        ServesExactly(targets, request, max);
        ServesOn(targets, request, max, |request.parts|);
        NoFileNoChange(targets, request.parts, |request.parts|);
        assert request.parts[|request.parts|..] == [];
      } else {
        var k := FirstToFail(targets, request, max);
        PartFails(targets, request, max, k);
      }
    }
  }

  lemma {:induction false} NoFileNoChange(targets: map<Name, seq<byte>>, parts: seq<Part>, k: nat)
    requires k <= |parts| && !HasFile(parts)
    ensures Landed(targets, parts, k) == targets
  {
    if k > 0 {
      NoFileNoChange(targets, parts, k - 1);
      assert !parts[k - 1].File?;
    }
  }

  // ----- The handler, when it works on the directory alone -----

  class Directory {
    var targets: map<Name, seq<byte>>
    var temps: map<Tmp, seq<byte>>
    /** The UUIDs from here on were never used. */
    var nextTmp: Tmp

    predicate Valid()
      reads this
    {
      forall t | t in temps :: t < nextTmp
    }

    constructor (targets: map<Name, seq<byte>>)
      ensures Valid() && this.targets == targets && temps == map[]
    {
      this.targets := targets;
      temps := map[];
      nextTmp := 0;
    }

    /** The rename fails on its own account, on an existing target if it must not replace one, or moves the file. */
    method Rename(tmp: Tmp, target: Name, replace: bool, works: bool) returns (error: Option<Status>)
      requires Valid() && tmp in temps
      modifies this`targets, this`temps
      ensures Valid()
      ensures error == if !works then Some(Internal)
                       else if !replace && target in old(targets) then Some(Conflict)
                       else None
      ensures targets == if error.None? then old(targets)[target := old(temps)[tmp]] else old(targets)
      ensures temps == if error.None? then old(temps) - {tmp} else old(temps)
    {
      if !works {
        return Some(Internal);
      }
      if !replace && target in targets {
        return Some(Conflict);
      }
      targets := targets[target := temps[tmp]];
      temps := temps - {tmp};
      return None;
    }
  }

  class UploadFileGuard {
    var path: Option<Tmp>

    constructor (tmp: Tmp)
      ensures path == Some(tmp)
    {
      path := Some(tmp);
    }

    method Disarm()
      modifies this
      ensures path == None
    {
      path := None;
    }

    method Drop(dir: Directory)
      requires dir.Valid()
      modifies dir`temps
      ensures dir.Valid()
      ensures dir.temps == if path.Some? then old(dir.temps) - {path.value} else old(dir.temps)
    {
      if path.Some? {
        dir.temps := dir.temps - {path.value};
      }
    }
  }

  method ReceiveField(dir: Directory, tmp: Tmp, stream: seq<Event>, max: nat) returns (r: Result<nat, Status>)
    requires dir.Valid() && tmp in dir.temps && dir.temps[tmp] == []
    modifies dir`temps
    ensures dir.Valid() && dir.temps.Keys == old(dir.temps).Keys
    ensures dir.temps - {tmp} == old(dir.temps) - {tmp}
    ensures match Receive(stream, max, [])
            case Err(e) => r == Err(e)
            case Ok(content) => r == Ok(|content|) && dir.temps[tmp] == content
  {
    var totalSize := 0;
    var i := 0;
    while i < |stream|
      invariant 0 <= i <= |stream| && dir.Valid()
      invariant dir.temps.Keys == old(dir.temps).Keys && dir.temps - {tmp} == old(dir.temps) - {tmp}
      invariant totalSize == |dir.temps[tmp]|
      invariant Receive(stream, max, []) == Receive(stream[i..], max, dir.temps[tmp])
    {
      match stream[i]
      case Broken => return Err(BadRequest);
      case Chunk(data, written) =>
        totalSize := totalSize + |data|;
        if totalSize > max {
          return Err(TooLarge);
        }
        if !written {
          return Err(Internal);
        }
        dir.temps := dir.temps[tmp := dir.temps[tmp] + data];
        i := i + 1;
    }
    r := Ok(totalSize);
  }

  method UploadPart(dir: Directory, part: Part, overwrite: bool, max: nat) returns (r: Result<nat, Status>)
    requires dir.Valid() && part.File?
    modifies dir
    ensures dir.Valid() && dir.temps == old(dir.temps)
    ensures match Land(old(dir.targets), overwrite, part, max)
            case Err(e) => r == Err(e) && dir.targets == old(dir.targets)
            case Ok(content) => r == Ok(|content|) && dir.targets == old(dir.targets)[part.target := content]
    ensures r.Ok? <==> (overwrite || part.target !in old(dir.targets)) && Passes(part, max)
    ensures r.Ok? ==>
              dir.targets == old(dir.targets)[part.target := Data(part.stream)] && r.value == |Data(part.stream)|
    ensures r.Err? ==> dir.targets == old(dir.targets)
  {
    LandsExactly(dir.targets, overwrite, part, max);
    if !overwrite && part.target in dir.targets {
      return Err(Conflict);
    }
    if !part.creates {
      return Err(Internal);
    }
    var tmp := dir.nextTmp;
    dir.nextTmp := dir.nextTmp + 1;
    dir.temps := dir.temps[tmp := []];
    assert dir.temps - {tmp} == old(dir.temps);
    var guard := new UploadFileGuard(tmp);
    r := ReceiveField(dir, tmp, part.stream, max);
    if r.Err? {
      guard.Drop(dir);
      return;
    }
    if !part.flushes {
      guard.Drop(dir);
      return Err(Internal);
    }
    var error := dir.Rename(tmp, part.target, overwrite, part.renames);
    if error.Some? {
      guard.Drop(dir);
      return Err(error.value);
    }
    guard.Disarm();
  }

  method UploadFile(dir: Directory, request: Request, max: nat) returns (answer: Result<Response, Status>)
    requires dir.Valid()
    modifies dir
    ensures dir.Valid() && dir.temps == old(dir.temps)
    ensures Outcome(dir.targets, answer) == Serve(old(dir.targets), request, max)
    ensures answer.Ok? <==>
              && request.resolveError.None? && request.baseError.None?
              && (request.contentLength.Some? ==> request.contentLength.value <= max)
              && GoThrough(old(dir.targets), request, max, |request.parts|) && HasFile(request.parts)
    ensures answer.Ok? ==> dir.targets == Landed(old(dir.targets), request.parts, |request.parts|)
    ensures answer.Ok? ==> Earned(request, |request.parts|) == Some(answer.value)
  {
    ServesExactly(dir.targets, request, max);
    if request.resolveError.Some? {
      return Err(request.resolveError.value);
    }
    if request.contentLength.Some? && request.contentLength.value > max {
      return Err(TooLarge);
    }
    if request.baseError.Some? {
      return Err(request.baseError.value);
    }
    var uploaded: Option<Response> := None;
    var i := 0;
    while i < |request.parts|
      invariant 0 <= i <= |request.parts| && dir.Valid() && dir.temps == old(dir.temps)
      invariant Serve(old(dir.targets), request, max) ==
                ServeParts(dir.targets, request.overwrite, request.parts[i..], max, uploaded)
      decreases |request.parts| - i
    {
      var part := request.parts[i];
      match part {
        case Garbled => return Err(BadRequest);
        case NotAFile =>
        case BadName(status) => return Err(status);
        case File(filename, _, _, _, _, _) =>
          var r := UploadPart(dir, part, request.overwrite, max);
          if r.Err? {
            return Err(r.error);
          }
          uploaded := Some(Response(filename, r.value));
      }
      i := i + 1;
    }
    if uploaded.None? {
      return Err(BadRequest);
    }
    answer := Ok(uploaded.value);
  }
}
