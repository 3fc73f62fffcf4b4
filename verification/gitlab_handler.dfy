/** The webhook classifier (lib/gitlabHandler.js): a GitLab push payload
    becomes a create, modify or delete event for one module branch, or is
    rejected with a message. */
module GitlabHandler {
  import opened Results
  import opened Text
  import opened Events

  datatype Repository = Repository(name: Option<string>, gitSshUrl: Option<string>)

  /** The parts of a push payload the classifier reads. */
  datatype Payload = Payload(repository: Repository, userName: Option<string>, ref: string,
                             before: Option<string>, after: Option<string>)

  const NoPayload: string := "No JSON payload to process"
  const OwnRepository: string := "This webhook is not intended to be used by the Puppetfile repository"
  const ProductionDeletion: string := "Deletion of the golden \"production\" branch is not allowed at the moment"
  const ProductionBranch: string := "production"
  const Heads: string := "heads"

  function RefTypeError(refType: string): string {
    "A reference of type \"" + refType + "\" was passed but we only handle \"heads\" reference type"
  }

  /** `parts[i]`, absent past the end. */
  function Segment(parts: seq<string>, i: nat): (r: Option<string>)
    ensures r.Some? <==> i < |parts|
  {
    if i < |parts| then Some(parts[i]) else None
  }

  /** The second `/`-segment of the ref: `heads` for a branch. */
  function RefType(p: Payload): Option<string> {
    Segment(Split(p.ref, '/'), 1)
  }

  /** The third `/`-segment of the ref; later segments are dropped. */
  function BranchOf(p: Payload): Option<string> {
    Segment(Split(p.ref, '/'), 2)
  }

  /** `/^0+$/.test(hash)`: one or more zeros and nothing else. */
  predicate AllZeros(s: string) {
    |s| > 0 && forall i :: 0 <= i < |s| ==> s[i] == '0'
  }

  predicate Created(p: Payload) { AllZeros(Shown(p.before)) }

  predicate Deleted(p: Payload) { AllZeros(Shown(p.after)) }

  /** The fields an accepted event carries over from the payload. */
  function Carried(p: Payload, puppetfileRepo: Option<string>): EventInfo {
    EventInfo(puppetfileRepo, p.userName, p.repository.name, BranchOf(p), p.repository.gitSshUrl, None)
  }

  /** `detectEvent(payload, puppetfileRepo)`. */
  function DetectEvent(payload: Option<Payload>, puppetfileRepo: Option<string>): (r: Result<EventInfo, string>)
    ensures payload.None? ==> r == Err(NoPayload)
    ensures payload.Some? && payload.value.repository.gitSshUrl == puppetfileRepo ==> r == Err(OwnRepository)
    ensures payload.Some? && payload.value.repository.gitSshUrl != puppetfileRepo && RefType(payload.value) != Some(Heads) ==>
              r == Err(RefTypeError(Shown(RefType(payload.value))))
    ensures r.Err? <==>
              || payload.None?
              || payload.value.repository.gitSshUrl == puppetfileRepo
              || RefType(payload.value) != Some(Heads)
              || (!Created(payload.value) && Deleted(payload.value) && BranchOf(payload.value) == Some(ProductionBranch))
    ensures (r.Err? && payload.Some? && payload.value.repository.gitSshUrl != puppetfileRepo
             && RefType(payload.value) == Some(Heads)) ==> r == Err(ProductionDeletion)
    ensures r.Ok? ==> r.value.kind.Some? && r.value == Carried(payload.value, puppetfileRepo).(kind := r.value.kind)
    ensures r.Ok? ==> (r.value.kind == Some(CreateEvent) <==> Created(payload.value))
    ensures r.Ok? ==> (r.value.kind == Some(DeleteEvent) <==> !Created(payload.value) && Deleted(payload.value))
    ensures r.Ok? ==> (r.value.kind == Some(ModifyEvent) <==> !Created(payload.value) && !Deleted(payload.value))
  {
    if payload.None? then Err(NoPayload)
    else
      var p := payload.value;
      var info := Carried(p, puppetfileRepo);
      if p.repository.gitSshUrl == puppetfileRepo then Err(OwnRepository)
      else if RefType(p) != Some(Heads) then Err(RefTypeError(Shown(RefType(p))))
      else if Created(p) then Ok(info.(kind := Some(CreateEvent)))
      else if Deleted(p) then
        if BranchOf(p) == Some(ProductionBranch) then Err(ProductionDeletion)
        else Ok(info.(kind := Some(DeleteEvent)))
      else Ok(info.(kind := Some(ModifyEvent)))
  }

  /** A branch ref `refs/heads/<b>`, possibly followed by more segments,
      has type `heads` and branch `<b>`: only the first segment of a branch
      name with slashes is kept. */
  lemma {:induction false} BranchRefSegments(ref: string, b: string, tail: string)
    requires ref == "refs/heads/" + b + tail && '/' !in b
    requires tail == "" || tail[0] == '/'
    ensures Segment(Split(ref, '/'), 1) == Some(Heads)
    ensures Segment(Split(ref, '/'), 2) == Some(b)
  {
    assert ref == "refs" + ['/'] + ("heads" + ['/'] + (b + tail));
    SplitCons("refs", '/', "heads" + ['/'] + (b + tail));
    SplitCons("heads", '/', b + tail);
    if tail == "" {
      assert b + tail == b;
      SplitWord(b, '/');
    } else {
      assert b + tail == b + ['/'] + tail[1..];
      SplitCons(b, '/', tail[1..]);
    }
  }

  /** A push to a module branch is classified by its two hashes alone and
      carries the payload's fields, with the branch cut at its first `/`. */
  lemma BranchPush(p: Payload, puppetfileRepo: Option<string>, b: string, tail: string)
    requires p.ref == "refs/heads/" + b + tail && '/' !in b && (tail == "" || tail[0] == '/')
    requires p.repository.gitSshUrl != puppetfileRepo
    requires !(!Created(p) && Deleted(p) && b == ProductionBranch)
    ensures DetectEvent(Some(p), puppetfileRepo) ==
              Ok(EventInfo(puppetfileRepo, p.userName, p.repository.name, Some(b), p.repository.gitSshUrl,
                           Some(if Created(p) then CreateEvent else if Deleted(p) then DeleteEvent else ModifyEvent)))
  {
    BranchRefSegments(p.ref, b, tail);
  }

  /** A tag push is rejected, naming the reference type. */
  lemma TagPush(p: Payload, puppetfileRepo: Option<string>, tag: string)
    requires p.ref == "refs/tags/" + tag && '/' !in tag
    requires p.repository.gitSshUrl != puppetfileRepo
    ensures DetectEvent(Some(p), puppetfileRepo) == Err(RefTypeError("tags"))
  {
    assert p.ref == "refs" + ['/'] + ("tags" + ['/'] + tag);
    SplitCons("refs", '/', "tags" + ['/'] + tag);
    SplitCons("tags", '/', tag);
  }
}
