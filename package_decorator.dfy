/** The validation decorator of the package repository
    (PackageRepositoryValidationDecorator): every write and every delete
    validates the packages involved before the delegate repository acts on
    them. Single-package operations validate first and forward the same
    package; stream operations hand the delegate a stream that validates each
    element as the delegate consumes it, so an invalid element stops the
    delegate at that element. */
module PackageValidation {
  import opened Wrappers

  /** A package of entity types; only its id matters to the repository. */
  datatype Package = Package(id: string, labelText: string, parentId: Option<string>)

  datatype RepoError =
    | ValidationFailed(package: Package)
      /** deleteById or deleteAll(ids) on an id with no stored package: the
          validator is handed null. */
    | MissingPackage(id: string)

  /** The calls the delegate repository receives, in order. */
  datatype Call =
    | AddOne(package: Package)
    | AddStream(packages: seq<Package>)
    | UpdateOne(package: Package)
    | UpdateStream(packages: seq<Package>)
    | DeleteOne(package: Package)
    | DeleteStream(packages: seq<Package>)
    | DeleteById(id: string)
    | DeleteAll
    | DeleteAllIds(ids: seq<string>)

  /** The state a consumed stream leaves behind and how its consumption ends. */
  datatype Run = Run(store: map<string, Package>, outcome: Outcome<RepoError>)

  /** Consuming a stream of packages to store: each element is validated as it
      is pulled, then stored; the first invalid element raises its error and
      the elements after it are never pulled. */
  function PutRun(m: map<string, Package>, ps: seq<Package>, isValid: Package -> bool): Run
    decreases |ps|
  {
    if ps == [] then Run(m, Pass)
    else if !isValid(ps[0]) then Run(m, Fail(ValidationFailed(ps[0])))
    else PutRun(m[ps[0].id := ps[0]], ps[1..], isValid)
  }

  /** Consuming a stream of packages to delete, in the same way. */
  function RemoveRun(m: map<string, Package>, ps: seq<Package>, isValid: Package -> bool): Run
    decreases |ps|
  {
    if ps == [] then Run(m, Pass)
    else if !isValid(ps[0]) then Run(m, Fail(ValidationFailed(ps[0])))
    else RemoveRun(m - {ps[0].id}, ps[1..], isValid)
  }

  /** Consuming a stream of ids to delete: each id is resolved in the current
      store and its package validated before it is removed. */
  function DeleteIdsRun(m: map<string, Package>, ids: seq<string>, isValid: Package -> bool): Run
    decreases |ids|
  {
    if ids == [] then Run(m, Pass)
    else if ids[0] !in m then Run(m, Fail(MissingPackage(ids[0])))
    else if !isValid(m[ids[0]]) then Run(m, Fail(ValidationFailed(m[ids[0]])))
    else DeleteIdsRun(m - {ids[0]}, ids[1..], isValid)
  }

  /** A put stream succeeds exactly when every element is valid, fails with
      the first invalid element otherwise, and never stores an invalid
      package. */
  lemma {:induction false} PutRunProperties(m: map<string, Package>, ps: seq<Package>, isValid: Package -> bool)
    ensures PutRun(m, ps, isValid).outcome.Pass? <==> forall i :: 0 <= i < |ps| ==> isValid(ps[i])
    ensures PutRun(m, ps, isValid).outcome.Fail? ==>
      exists k :: 0 <= k < |ps| && PutRun(m, ps, isValid).outcome.error == ValidationFailed(ps[k]) && !isValid(ps[k])
        && forall j :: 0 <= j < k ==> isValid(ps[j])
    ensures forall id :: id in PutRun(m, ps, isValid).store ==>
      (id in m && PutRun(m, ps, isValid).store[id] == m[id]) || isValid(PutRun(m, ps, isValid).store[id])
    ensures m.Keys <= PutRun(m, ps, isValid).store.Keys
    decreases |ps|
  {
    if ps != [] && isValid(ps[0]) {
      var m' := m[ps[0].id := ps[0]];
      PutRunProperties(m', ps[1..], isValid);
      var r := PutRun(m, ps, isValid);
      assert r == PutRun(m', ps[1..], isValid);
      if r.outcome.Fail? {
        var k :| 0 <= k < |ps[1..]| && r.outcome.error == ValidationFailed(ps[1..][k]) && !isValid(ps[1..][k])
          && forall j :: 0 <= j < k ==> isValid(ps[1..][j]);
        assert r.outcome.error == ValidationFailed(ps[k + 1]);
        forall j | 0 <= j < k + 1 ensures isValid(ps[j]) {
          if j > 0 { assert ps[j] == ps[1..][j - 1]; }
        }
      }
      if r.outcome.Pass? {
        forall i | 0 <= i < |ps| ensures isValid(ps[i]) {
          if i > 0 { assert ps[i] == ps[1..][i - 1]; }
        }
      }
      forall id | id in r.store ensures (id in m && r.store[id] == m[id]) || isValid(r.store[id]) {
        if id in m' && r.store[id] == m'[id] && id != ps[0].id {
          assert m'[id] == m[id];
        }
      }
    }
  }

  /** A delete stream succeeds exactly when every element is valid, and
      removes only packages that passed validation. */
  lemma {:induction false} RemoveRunProperties(m: map<string, Package>, ps: seq<Package>, isValid: Package -> bool)
    ensures RemoveRun(m, ps, isValid).outcome.Pass? <==> forall i :: 0 <= i < |ps| ==> isValid(ps[i])
    ensures RemoveRun(m, ps, isValid).store.Keys <= m.Keys
    ensures forall id :: id in RemoveRun(m, ps, isValid).store ==> RemoveRun(m, ps, isValid).store[id] == m[id]
    ensures forall id :: id in m && id !in RemoveRun(m, ps, isValid).store ==>
      exists i :: 0 <= i < |ps| && ps[i].id == id && isValid(ps[i])
    decreases |ps|
  {
    if ps != [] && isValid(ps[0]) {
      var m' := m - {ps[0].id};
      RemoveRunProperties(m', ps[1..], isValid);
      var r := RemoveRun(m, ps, isValid);
      assert r == RemoveRun(m', ps[1..], isValid);
      if r.outcome.Pass? {
        forall i | 0 <= i < |ps| ensures isValid(ps[i]) {
          if i > 0 { assert ps[i] == ps[1..][i - 1]; }
        }
      }
      forall id | id in m && id !in r.store ensures exists i :: 0 <= i < |ps| && ps[i].id == id && isValid(ps[i]) {
        if id == ps[0].id {
          assert ps[0].id == id && isValid(ps[0]);
        } else {
          assert id in m';
          var i :| 0 <= i < |ps[1..]| && ps[1..][i].id == id && isValid(ps[1..][i]);
          assert ps[i + 1] == ps[1..][i];
        }
      }
    }
  }

  /** An id stream succeeds exactly when every id resolves, one after the
      other, to a valid package; every removed package passed validation. */
  lemma {:induction false} DeleteIdsRunProperties(m: map<string, Package>, ids: seq<string>, isValid: Package -> bool)
    ensures DeleteIdsRun(m, ids, isValid).outcome.Pass? ==>
      forall i :: 0 <= i < |ids| ==> ids[i] !in DeleteIdsRun(m, ids, isValid).store
    ensures DeleteIdsRun(m, ids, isValid).store.Keys <= m.Keys
    ensures forall id :: id in DeleteIdsRun(m, ids, isValid).store ==> DeleteIdsRun(m, ids, isValid).store[id] == m[id]
    ensures forall id :: id in m && id !in DeleteIdsRun(m, ids, isValid).store ==> id in ids && isValid(m[id])
    decreases |ids|
  {
    if ids != [] && ids[0] in m && isValid(m[ids[0]]) {
      var m' := m - {ids[0]};
      DeleteIdsRunProperties(m', ids[1..], isValid);
      var r := DeleteIdsRun(m, ids, isValid);
      assert r == DeleteIdsRun(m', ids[1..], isValid);
      if r.outcome.Pass? {
        forall i | 0 <= i < |ids| ensures ids[i] !in r.store {
          if i > 0 { assert ids[i] == ids[1..][i - 1]; }
        }
      }
      forall id | id in m && id !in r.store ensures id in ids && isValid(m[id]) {
        if id != ids[0] {
          assert id in m' && id in ids[1..];
        }
      }
    }
  }

  /** The delegate repository: an in-memory store of packages by id that
      records the calls it receives. Its stream operations consume the
      (decorated) stream element by element. */
  class PackageRepository {
    var packages: map<string, Package>
    var calls: seq<Call>

    constructor(initial: map<string, Package>)
      ensures packages == initial && calls == []
    {
      packages := initial;
      calls := [];
    }

    method FindOneById(id: string) returns (p: Option<Package>)
      ensures p == (if id in packages then Some(packages[id]) else None)
    {
      p := if id in packages then Some(packages[id]) else None;
    }

    /** The stored packages, each once, in some order. */
    method Iterate() returns (ps: seq<Package>)
      ensures |ps| == |packages|
      ensures forall p :: p in ps <==> p in packages.Values
    {
      ps := [];
      var seen: set<string> := {};
      var rest := packages.Keys;
      while rest != {}
        invariant rest !! seen && rest + seen == packages.Keys
        invariant |ps| == |seen|
        invariant forall p :: p in ps <==> exists id :: id in seen && packages[id] == p
        decreases rest
      {
        var id :| id in rest;
        ps := ps + [packages[id]];
        seen := seen + {id};
        rest := rest - {id};
      }
      assert seen == packages.Keys;
      assert |packages.Keys| == |packages|;
      forall p | p in packages.Values ensures p in ps {
        var id :| id in packages && packages[id] == p;
      }
    }

    method Add(p: Package)
      modifies this
      ensures packages == old(packages)[p.id := p] && calls == old(calls) + [AddOne(p)]
    {
      packages := packages[p.id := p];
      calls := calls + [AddOne(p)];
    }

    method Update(p: Package)
      modifies this
      ensures packages == old(packages)[p.id := p] && calls == old(calls) + [UpdateOne(p)]
    {
      packages := packages[p.id := p];
      calls := calls + [UpdateOne(p)];
    }

    method Delete(p: Package)
      modifies this
      ensures packages == old(packages) - {p.id} && calls == old(calls) + [DeleteOne(p)]
    {
      packages := packages - {p.id};
      calls := calls + [DeleteOne(p)];
    }

    method DeleteOneById(id: string)
      modifies this
      ensures packages == old(packages) - {id} && calls == old(calls) + [DeleteById(id)]
    {
      packages := packages - {id};
      calls := calls + [DeleteById(id)];
    }

    method DeleteEverything()
      modifies this
      ensures packages == map[] && calls == old(calls) + [DeleteAll]
    {
      packages := map[];
      calls := calls + [DeleteAll];
    }

    /** Pulls every element of a put stream, validating it, and stores it. */
    method PutEach(ps: seq<Package>, isValid: Package -> bool) returns (r: Outcome<RepoError>)
      modifies this
      ensures Run(packages, r) == PutRun(old(packages), ps, isValid)
      ensures calls == old(calls)
    {
      var i := 0;
      while i < |ps|
        invariant 0 <= i <= |ps|
        invariant PutRun(packages, ps[i..], isValid) == PutRun(old(packages), ps, isValid)
        invariant calls == old(calls)
      {
        assert ps[i..][1..] == ps[i + 1..];
        if !isValid(ps[i]) {
          return Fail(ValidationFailed(ps[i]));
        }
        packages := packages[ps[i].id := ps[i]];
        i := i + 1;
      }
      return Pass;
    }

    method AddAll(ps: seq<Package>, isValid: Package -> bool) returns (r: Outcome<RepoError>)
      modifies this
      ensures Run(packages, r) == PutRun(old(packages), ps, isValid)
      ensures calls == old(calls) + [AddStream(ps)]
    {
      calls := calls + [AddStream(ps)];
      r := PutEach(ps, isValid);
    }

    method UpdateAll(ps: seq<Package>, isValid: Package -> bool) returns (r: Outcome<RepoError>)
      modifies this
      ensures Run(packages, r) == PutRun(old(packages), ps, isValid)
      ensures calls == old(calls) + [UpdateStream(ps)]
    {
      calls := calls + [UpdateStream(ps)];
      r := PutEach(ps, isValid);
    }

    method DeleteAllOf(ps: seq<Package>, isValid: Package -> bool) returns (r: Outcome<RepoError>)
      modifies this
      ensures Run(packages, r) == RemoveRun(old(packages), ps, isValid)
      ensures calls == old(calls) + [DeleteStream(ps)]
    {
      calls := calls + [DeleteStream(ps)];
      var i := 0;
      while i < |ps|
        invariant 0 <= i <= |ps|
        invariant RemoveRun(packages, ps[i..], isValid) == RemoveRun(old(packages), ps, isValid)
        invariant calls == old(calls) + [DeleteStream(ps)]
      {
        assert ps[i..][1..] == ps[i + 1..];
        if !isValid(ps[i]) {
          return Fail(ValidationFailed(ps[i]));
        }
        packages := packages - {ps[i].id};
        i := i + 1;
      }
      return Pass;
    }

    /** Pulls every id of an id stream; the decorated stream resolves each id
        in the store and validates its package before it is deleted. */
    method DeleteAllById(ids: seq<string>, isValid: Package -> bool) returns (r: Outcome<RepoError>)
      modifies this
      ensures Run(packages, r) == DeleteIdsRun(old(packages), ids, isValid)
      ensures calls == old(calls) + [DeleteAllIds(ids)]
    {
      calls := calls + [DeleteAllIds(ids)];
      var i := 0;
      while i < |ids|
        invariant 0 <= i <= |ids|
        invariant DeleteIdsRun(packages, ids[i..], isValid) == DeleteIdsRun(old(packages), ids, isValid)
        invariant calls == old(calls) + [DeleteAllIds(ids)]
      {
        assert ids[i..][1..] == ids[i + 1..];
        var found := FindOneById(ids[i]);
        if found.None? {
          return Fail(MissingPackage(ids[i]));
        }
        if !isValid(found.value) {
          return Fail(ValidationFailed(found.value));
        }
        packages := packages - {ids[i]};
        i := i + 1;
      }
      return Pass;
    }
  }

  class PackageRepositoryValidationDecorator {
    const delegate: PackageRepository
    /** PackageValidator.validate: true when it does not throw. */
    const isValid: Package -> bool

    constructor(delegate: PackageRepository, isValid: Package -> bool)
      ensures this.delegate == delegate && this.isValid == isValid
    {
      this.delegate := delegate;
      this.isValid := isValid;
    }

    method Add(p: Package) returns (r: Outcome<RepoError>)
      modifies delegate
      ensures isValid(p) ==> (r == Pass && delegate.packages == old(delegate.packages)[p.id := p]
        && delegate.calls == old(delegate.calls) + [AddOne(p)])
      ensures !isValid(p) ==> (r == Fail(ValidationFailed(p))
        && delegate.packages == old(delegate.packages) && delegate.calls == old(delegate.calls))
    {
      if !isValid(p) {
        return Fail(ValidationFailed(p));
      }
      delegate.Add(p);
      return Pass;
    }

    method Update(p: Package) returns (r: Outcome<RepoError>)
      modifies delegate
      ensures isValid(p) ==> (r == Pass && delegate.packages == old(delegate.packages)[p.id := p]
        && delegate.calls == old(delegate.calls) + [UpdateOne(p)])
      ensures !isValid(p) ==> (r == Fail(ValidationFailed(p))
        && delegate.packages == old(delegate.packages) && delegate.calls == old(delegate.calls))
    {
      if !isValid(p) {
        return Fail(ValidationFailed(p));
      }
      delegate.Update(p);
      return Pass;
    }

    method Delete(p: Package) returns (r: Outcome<RepoError>)
      modifies delegate
      ensures isValid(p) ==> (r == Pass && delegate.packages == old(delegate.packages) - {p.id}
        && delegate.calls == old(delegate.calls) + [DeleteOne(p)])
      ensures !isValid(p) ==> (r == Fail(ValidationFailed(p))
        && delegate.packages == old(delegate.packages) && delegate.calls == old(delegate.calls))
    {
      if !isValid(p) {
        return Fail(ValidationFailed(p));
      }
      delegate.Delete(p);
      return Pass;
    }

    /** The delegate receives the stream itself, exactly the input elements in
        order; consuming it validates each element. */
    method AddStream(ps: seq<Package>) returns (r: Outcome<RepoError>)
      modifies delegate
      ensures delegate.calls == old(delegate.calls) + [Call.AddStream(ps)]
      ensures Run(delegate.packages, r) == PutRun(old(delegate.packages), ps, isValid)
    {
      r := delegate.AddAll(ps, isValid);
    }

    method UpdateStream(ps: seq<Package>) returns (r: Outcome<RepoError>)
      modifies delegate
      ensures delegate.calls == old(delegate.calls) + [Call.UpdateStream(ps)]
      ensures Run(delegate.packages, r) == PutRun(old(delegate.packages), ps, isValid)
    {
      r := delegate.UpdateAll(ps, isValid);
    }

    method DeleteStream(ps: seq<Package>) returns (r: Outcome<RepoError>)
      modifies delegate
      ensures delegate.calls == old(delegate.calls) + [Call.DeleteStream(ps)]
      ensures Run(delegate.packages, r) == RemoveRun(old(delegate.packages), ps, isValid)
    {
      r := delegate.DeleteAllOf(ps, isValid);
    }

    /** deleteById: fetch the package, validate it, forward the id. */
    method DeleteById(id: string) returns (r: Outcome<RepoError>)
      modifies delegate
      ensures id !in old(delegate.packages) ==> r == Fail(MissingPackage(id))
      ensures id in old(delegate.packages) && !isValid(old(delegate.packages)[id]) ==>
        r == Fail(ValidationFailed(old(delegate.packages)[id]))
      ensures r.Fail? ==> delegate.packages == old(delegate.packages) && delegate.calls == old(delegate.calls)
      ensures id in old(delegate.packages) && isValid(old(delegate.packages)[id]) ==>
        r == Pass && delegate.packages == old(delegate.packages) - {id}
        && delegate.calls == old(delegate.calls) + [Call.DeleteById(id)]
    {
      var found := delegate.FindOneById(id);
      if found.None? {
        return Fail(MissingPackage(id));
      }
      if !isValid(found.value) {
        return Fail(ValidationFailed(found.value));
      }
      delegate.DeleteOneById(id);
      return Pass;
    }

    /** deleteAll(): validate every stored package first; only when all pass
        is deleteAll forwarded. */
    method DeleteAllPackages() returns (r: Outcome<RepoError>)
      modifies delegate
      ensures r.Pass? <==> forall p :: p in old(delegate.packages).Values ==> isValid(p)
      ensures r.Pass? ==> delegate.packages == map[] && delegate.calls == old(delegate.calls) + [DeleteAll]
      ensures r.Fail? ==> (delegate.packages == old(delegate.packages) && delegate.calls == old(delegate.calls)
        && exists p :: p in old(delegate.packages).Values && !isValid(p) && r.error == ValidationFailed(p))
    {
      var ps := delegate.Iterate();
      var i := 0;
      while i < |ps|
        invariant 0 <= i <= |ps|
        invariant forall j :: 0 <= j < i ==> isValid(ps[j])
      {
        if !isValid(ps[i]) {
          return Fail(ValidationFailed(ps[i]));
        }
        i := i + 1;
      }
      forall p | p in delegate.packages.Values ensures isValid(p) {
        var j :| 0 <= j < |ps| && ps[j] == p;
      }
      delegate.DeleteEverything();
      return Pass;
    }

    /** deleteAll(ids): the delegate receives the id stream; consuming it
        resolves and validates each package before its deletion. */
    method DeleteAllIds(ids: seq<string>) returns (r: Outcome<RepoError>)
      modifies delegate
      ensures delegate.calls == old(delegate.calls) + [Call.DeleteAllIds(ids)]
      ensures Run(delegate.packages, r) == DeleteIdsRun(old(delegate.packages), ids, isValid)
    {
      r := delegate.DeleteAllById(ids, isValid);
    }
  }

  /** Whatever a put stream does, the stored packages afterwards are the old
      ones or valid ones: the decorator never lets an invalid package in. */
  lemma NoInvalidPackageStored(m: map<string, Package>, ps: seq<Package>, isValid: Package -> bool)
    requires forall id :: id in m ==> isValid(m[id])
    ensures forall id :: id in PutRun(m, ps, isValid).store ==> isValid(PutRun(m, ps, isValid).store[id])
  {
    PutRunProperties(m, ps, isValid);
  }

  /** The stream tests: a one-element stream of a valid package is stored and
      of an invalid package raises its validation error. */
  lemma OneElementStreams(m: map<string, Package>, p: Package, isValid: Package -> bool)
    ensures isValid(p) ==> PutRun(m, [p], isValid) == Run(m[p.id := p], Pass)
    ensures !isValid(p) ==> PutRun(m, [p], isValid) == Run(m, Fail(ValidationFailed(p)))
    ensures !isValid(p) ==> RemoveRun(m, [p], isValid) == Run(m, Fail(ValidationFailed(p)))
    ensures p.id in m && !isValid(m[p.id]) ==>
      DeleteIdsRun(m, [p.id], isValid) == Run(m, Fail(ValidationFailed(m[p.id])))
  {
  }
}
