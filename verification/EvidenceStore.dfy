/** The bounded, content-addressed store of raw responses. The two digest functions and the splitting
    of a URL are parameters; no property here needs the digests to be injective, because the store
    compares the bytes themselves. */
module EvidenceStore {

  import opened Outcomes
  import opened AbiWords

  datatype Request = Request(endpoint: string, isGet: bool, target: string, body: Option<seq<byte>>)

  /** What `urlsplit` finds in an endpoint; a part that is missing is empty. */
  datatype Url = Url(scheme: string, authority: string, username: string, password: string) {
    /** Over HTTPS, to a host, and without credentials. */
    predicate IsPlainHttps() {
      scheme == "https" && authority != "" && username == "" && password == ""
    }
  }

  /** What a capture returns, and what its manifest file holds. */
  datatype Record<D> = Record(
    responseDigest: D, responseBytes: nat, responsePath: D, requestDigest: D, request: Request, manifestPath: (D, D))

  /** The sizes of the stored responses, summed. */
  ghost function TotalBytes<D>(files: map<D, seq<byte>>): nat
    decreases |files|
  {
    if files == map[] then 0
    else
      var name :| name in files;
      |files[name]| + TotalBytes(files - {name})
  }

  lemma {:induction false} TotalWithout<D>(files: map<D, seq<byte>>, name: D)
    requires name in files
    ensures TotalBytes(files) == |files[name]| + TotalBytes(files - {name})
    decreases |files|
  {
    var first :| first in files && TotalBytes(files) == |files[first]| + TotalBytes(files - {first});
    if first != name {
      TotalWithout(files - {first}, name);
      TotalWithout(files - {name}, first);
      assert files - {first} - {name} == files - {name} - {first};
    }
  }

  lemma TotalWith<D>(files: map<D, seq<byte>>, name: D, body: seq<byte>)
    requires name !in files
    ensures TotalBytes(files[name := body]) == TotalBytes(files) + |body| && TotalBytes<D>(map[]) == 0
  {
    TotalWithout(files[name := body], name);
    assert files[name := body] - {name} == files;
  }

  /** Adds up the file sizes in whatever order the directory lists them. */
  method SumSizes<D(==)>(files: map<D, seq<byte>>) returns (total: nat)
    ensures total == TotalBytes(files)
  {
    total := 0;
    var left := files;
    while left != map[]
      invariant total + TotalBytes(left) == TotalBytes(files)
      decreases |left|
    {
      var name :| name in left;
      TotalWithout(left, name);
      total := total + |left[name]|;
      left := left - {name};
    }
  }

  ghost predicate Extends<K, V>(before: map<K, V>, after: map<K, V>) {
    forall k :: k in before ==> k in after && after[k] == before[k]
  }

  class Store<D(==, !new)> {
    const digest: seq<byte> -> D
    const requestDigest: Request -> D
    const split: string -> Url
    const maxResponse: nat
    const maxTotal: nat
    const maxRecords: nat

    var responses: map<D, seq<byte>>
    var manifests: map<(D, D), Record<D>>

    /** The records returned so far and the bytes they were returned for. */
    ghost var issued: map<Record<D>, seq<byte>>

    /** The bounds, the content addressing, and every issued record readable. */
    ghost predicate Valid()
      reads this
    {
      && 256 <= maxResponse <= maxTotal && 1 <= maxRecords <= 1024
      && |responses| <= maxRecords && |manifests| <= maxRecords && TotalBytes(responses) <= maxTotal
      && (forall name :: name in responses ==> digest(responses[name]) == name && |responses[name]| <= maxResponse)
      && (forall record :: record in issued ==> Holds(record, issued[record]))
    }

    ghost predicate Holds(record: Record<D>, body: seq<byte>)
      reads this
    {
      && record.responsePath in responses && responses[record.responsePath] == body
      && record.responseBytes == |body| && record.responseDigest == digest(body)
      && record.manifestPath in manifests && manifests[record.manifestPath] == record
    }

    predicate RequestFits(request: Request) {
      && request.endpoint != "" && |request.endpoint| <= 2048 && split(request.endpoint).IsPlainHttps()
      && request.target != "" && |request.target| <= 4096
      && (request.body.Some? ==> |request.body.value| <= maxResponse)
    }

    function RecordOf(request: Request, body: seq<byte>): Record<D> {
      var r, q := digest(body), requestDigest(request);
      Record(r, |body|, r, q, request, (r, q))
    }

    constructor (
        digest: seq<byte> -> D, requestDigest: Request -> D, split: string -> Url,
        maxResponse: nat, maxTotal: nat, maxRecords: nat)
      requires 256 <= maxResponse <= maxTotal && 1 <= maxRecords <= 1024
      ensures Valid() && responses == map[] && manifests == map[] && issued == map[]
      ensures this.digest == digest && this.requestDigest == requestDigest && this.split == split
      ensures this.maxResponse == maxResponse && this.maxTotal == maxTotal && this.maxRecords == maxRecords
    {
      this.digest, this.requestDigest, this.split := digest, requestDigest, split;
      this.maxResponse, this.maxTotal, this.maxRecords := maxResponse, maxTotal, maxRecords;
      responses, manifests, issued := map[], map[], map[];
    }

    /** Room for what the capture would add. */
    ghost predicate HasRoom(record: Record<D>, body: seq<byte>)
      reads this
    {
      && (record.responsePath !in responses ==> |responses| < maxRecords && TotalBytes(responses) + |body| <= maxTotal)
      && (record.manifestPath !in manifests ==> |manifests| < maxRecords)
    }

    /** No other content under the addresses of the capture. */
    predicate Agrees(record: Record<D>, body: seq<byte>)
      reads this
    {
      && (record.responsePath in responses ==> responses[record.responsePath] == body)
      && (record.manifestPath in manifests ==> manifests[record.manifestPath] == record)
    }

    /** Writes the response unless its address is taken, and never over other content. */
    method StoreResponse(name: D, body: seq<byte>) returns (ok: bool)
      requires Valid() && digest(body) == name && |body| <= maxResponse
      requires name !in responses ==> |responses| < maxRecords && TotalBytes(responses) + |body| <= maxTotal
      modifies this`responses
      ensures Valid()
      ensures ok <==> old(name in responses ==> responses[name] == body)
      ensures ok ==> responses == old(responses)[name := body]
      ensures !ok ==> responses == old(responses)
      ensures Extends(old(responses), responses)
    {
      if name in responses {
        ok := responses[name] == body;
        assert ok ==> responses == responses[name := body];
      } else {
        TotalWith(responses, name, body);
        responses := responses[name := body];
        ok := true;
      }
    }

    /** Writes the manifest unless its address is taken, and issues the record. */
    method StoreManifest(record: Record<D>, body: seq<byte>) returns (ok: bool)
      requires Valid() && record.responsePath in responses && responses[record.responsePath] == body
      requires record.responseBytes == |body| && record.responseDigest == digest(body)
      requires record.manifestPath !in manifests ==> |manifests| < maxRecords
      modifies this`manifests, this`issued
      ensures Valid()
      ensures ok <==> old(record.manifestPath in manifests ==> manifests[record.manifestPath] == record)
      ensures ok ==> manifests == old(manifests)[record.manifestPath := record] && issued == old(issued)[record := body]
      ensures !ok ==> manifests == old(manifests) && issued == old(issued)
      ensures ok && record in old(issued) ==> old(issued)[record] == body
    {
      if record.manifestPath in manifests {
        ok := manifests[record.manifestPath] == record;
        assert ok ==> manifests == manifests[record.manifestPath := record];
      } else {
        manifests := manifests[record.manifestPath := record];
        ok := true;
      }
      if ok {
        issued := issued[record := body];
      }
    }

    /** Stores a response and its manifest, or stores nothing. A process that is interrupted between
        the two writes has stored the response alone. Stored content never changes. */
    method Capture(request: Request, body: seq<byte>, interrupted: bool) returns (r: Result<Record<D>>)
      requires Valid()
      modifies this
      ensures Valid()
      ensures r.Ok? <==> RequestFits(request) && |body| <= maxResponse && old(HasRoom(RecordOf(request, body), body))
                         && old(Agrees(RecordOf(request, body), body)) && !interrupted
      ensures r.Ok? ==> r.value == RecordOf(request, body) && issued == old(issued)[r.value := body]
                        && responses == old(responses)[r.value.responsePath := body]
                        && manifests == old(manifests)[r.value.manifestPath := r.value]
                        && (r.value in old(issued) ==> old(issued)[r.value] == body)
      ensures r.Refused? ==> issued == old(issued) && manifests == old(manifests)
                             && (responses == old(responses) || responses == old(responses)[digest(body) := body])
      ensures Extends(old(responses), responses) && Extends(old(issued), issued)
      ensures r.Ok? <==>
                && 1 <= |request.endpoint| <= 2048 && 1 <= |request.target| <= 4096 && !interrupted
                && split(request.endpoint).scheme == "https" && split(request.endpoint).authority != ""
                && split(request.endpoint).username == "" && split(request.endpoint).password == ""
                && (request.body.Some? ==> |request.body.value| <= maxResponse) && |body| <= maxResponse
                && (if digest(body) in old(responses) then old(responses)[digest(body)] == body
                    else |old(responses)| < maxRecords && TotalBytes(old(responses)) + |body| <= maxTotal)
                && var path := (digest(body), requestDigest(request));
                   if path in old(manifests) then
                     old(manifests)[path] == Record(digest(body), |body|, digest(body), requestDigest(request), request, path)
                   else |old(manifests)| < maxRecords
      ensures r.Ok? ==>
                && r.value.request == request && r.value.responseBytes == |body|
                && r.value.responseDigest == digest(body) && r.value.requestDigest == requestDigest(request)
                && r.value.responsePath == digest(body) && r.value.manifestPath == (digest(body), requestDigest(request))
    {
      if !RequestFits(request) || maxResponse < |body| {
        return Refused(OutOfContract);
      }
      var record := RecordOf(request, body);
      if record.responsePath !in responses {
        var total := SumSizes(responses);
        if maxRecords <= |responses| || maxTotal < total + |body| {
          return Refused(OutOfContract);
        }
      }
      if record.manifestPath !in manifests && maxRecords <= |manifests| {
        return Refused(OutOfContract);
      }
      var stored := StoreResponse(record.responsePath, body);
      if !stored || interrupted {
        return Refused(SafeHalt);
      }
      var listed := StoreManifest(record, body);
      return if listed then Ok(record) else Refused(SafeHalt);
    }

    /** Reads a record back: every record ever issued yields the exact bytes it was issued for, and
        of any other record only what still matches its digests. */
    method Read(record: Record<D>) returns (r: Result<seq<byte>>)
      requires Valid()
      ensures record in issued ==> r == Ok(issued[record])
      ensures r.Ok? <==> record.responsePath in responses && Holds(record, responses[record.responsePath])
      ensures r.Ok? ==> r.value == responses[record.responsePath] && r.value == responses[record.responseDigest]
    {
      if record.responsePath !in responses {
        return Refused(SafeHalt);
      }
      var body := responses[record.responsePath];
      if |body| != record.responseBytes || digest(body) != record.responseDigest {
        return Refused(SafeHalt);
      }
      if record.manifestPath !in manifests || manifests[record.manifestPath] != record {
        return Refused(SafeHalt);
      }
      return Ok(body);
    }
  }

  /** A capture to be made, and whether it is interrupted. */
  datatype Attempt = Attempt(request: Request, body: seq<byte>, interrupted: bool)

  /** Over any sequence of captures, interrupted ones included, the bounds hold, no stored response
      changes, and every record issued along the way still reads back its bytes. */
  method CaptureAll<D(==, !new)>(store: Store<D>, attempts: seq<Attempt>) returns (records: seq<Option<Record<D>>>)
    requires store.Valid()
    modifies store
    ensures store.Valid() && |records| == |attempts|
    ensures |store.responses| <= store.maxRecords && |store.manifests| <= store.maxRecords
    ensures TotalBytes(store.responses) <= store.maxTotal
    ensures forall k :: k in old(store.responses) ==> k in store.responses && store.responses[k] == old(store.responses)[k]
    ensures Extends(old(store.responses), store.responses) && Extends(old(store.issued), store.issued)
    ensures forall i :: 0 <= i < |records| && records[i].Some? ==>
              records[i].value in store.issued && store.issued[records[i].value] == attempts[i].body
  {
    records := [];
    for i := 0 to |attempts|
      invariant store.Valid() && |records| == i
      invariant Extends(old(store.responses), store.responses) && Extends(old(store.issued), store.issued)
      invariant forall k :: 0 <= k < i && records[k].Some? ==>
                  records[k].value in store.issued && store.issued[records[k].value] == attempts[k].body
    {
      ghost var before := store.issued;
      var r := store.Capture(attempts[i].request, attempts[i].body, attempts[i].interrupted);
      assert Extends(before, store.issued);
      records := records + [if r.Ok? then Some(r.value) else None];
    }
  }
}
