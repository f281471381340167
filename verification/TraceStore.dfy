/** The object store of traces: a bucket listed page by page while others upload to it, and the
    deletion of everything under one run's prefix. */
module TraceStore {
  import opened Wrappers
  import opened TracePipeline

  predicate HasPrefix(key: string, prefix: string) { prefix <= key }

  /** The order of a listing: character by character. */
  predicate Less(a: string, b: string) {
    if b == [] then false
    else if a == [] then true
    else a[0] < b[0] || (a[0] == b[0] && Less(a[1..], b[1..]))
  }

  lemma {:induction false} LessTransitive(a: string, b: string, c: string)
    requires Less(a, b) && Less(b, c)
    ensures Less(a, c)
  {
    if a != [] && a[0] == b[0] == c[0] {
      LessTransitive(a[1..], b[1..], c[1..]);
    }
  }

  lemma {:induction false} LessTotal(a: string, b: string)
    ensures a == b || Less(a, b) || Less(b, a)
    ensures !(Less(a, b) && Less(b, a)) && !Less(a, a)
  {
    if a != [] && b != [] {
      LessTotal(a[1..], b[1..]);
      assert a == [a[0]] + a[1..] && b == [b[0]] + b[1..];
    }
    if a != [] {
      LessTotal(a[1..], a[1..]);
    }
  }

  /** They differ at i, where the first is smaller or ends. */
  ghost predicate FirstDifference(a: string, b: string, i: nat) {
    i <= |a| && i < |b| && a[..i] == b[..i] && (i == |a| || a[i] < b[i])
  }

  /** A key comes before another if it is smaller at their first difference, or is its beginning. */
  lemma {:induction false} LessIsLexicographic(a: string, b: string)
    ensures Less(a, b) <==> exists i: nat :: FirstDifference(a, b, i)
  {
    if a == [] && b != [] {
      assert FirstDifference(a, b, 0);
    } else if a != [] && b != [] {
      LessIsLexicographic(a[1..], b[1..]);
      if a[0] < b[0] {
        assert FirstDifference(a, b, 0);
      }
      if a[0] == b[0] && Less(a[1..], b[1..]) {
        var i: nat :| FirstDifference(a[1..], b[1..], i);
        assert a[..i + 1] == [a[0]] + a[1..][..i] && b[..i + 1] == [b[0]] + b[1..][..i];
        assert FirstDifference(a, b, i + 1);
      }
      if i: nat :| FirstDifference(a, b, i) {
        if i > 0 {
          assert a[0] == a[..i][0] == b[..i][0] == b[0];
          assert a[1..][..i - 1] == a[..i][1..] && b[1..][..i - 1] == b[..i][1..];
          assert FirstDifference(a[1..], b[1..], i - 1);
        }
      }
    }
  }

  /** Past the continuation token, which is the last key listed. */
  predicate Past(key: string, token: Option<string>) { token.Some? ==> Less(token.value, key) }

  /** What is left to list. */
  function Remaining(keys: set<string>, prefix: string, token: Option<string>): set<string> {
    set k | k in keys && HasPrefix(k, prefix) && Past(k, token)
  }

  /** The union of what others uploaded before the first n requests. */
  function Arrived(arrivals: seq<set<string>>, n: nat): set<string> {
    if n == 0 then {}
    else Arrived(arrivals, n - 1) + (if n <= |arrivals| then arrivals[n - 1] else {})
  }

  lemma {:induction false} ArrivedIsBounded(arrivals: seq<set<string>>, n: nat)
    ensures Arrived(arrivals, n) <= Arrived(arrivals, |arrivals|)
    decreases if n <= |arrivals| then |arrivals| - n else n
  {
    if n < |arrivals| {
      ArrivedIsBounded(arrivals, n + 1);
    } else if n > |arrivals| {
      ArrivedIsBounded(arrivals, n - 1);
    }
  }

  /** The least of some keys. */
  method Least(keys: set<string>) returns (least: string)
    requires keys != {}
    ensures least in keys && forall k :: k in keys ==> k == least || Less(least, k)
  {
    least :| least in keys;
    var todo := keys - {least};
    while todo != {}
      invariant todo <= keys && least in keys - todo
      invariant forall k :: k in keys - todo ==> k == least || Less(least, k)
      decreases todo
    {
      var k :| k in todo;
      LessTotal(k, least);
      if Less(k, least) {
        forall other | other in keys - todo && other != least ensures Less(k, other) {
          LessTransitive(k, least, other);
        }
        least := k;
      }
      todo := todo - {k};
    }
  }

  class Bucket {
    var keys: set<string>

    /** Others upload just before request n. */
    method Receive(arrivals: seq<set<string>>, n: nat)
      modifies this
      ensures keys == old(keys) + (if n < |arrivals| then arrivals[n] else {})
    {
      if n < |arrivals| {
        keys := keys + arrivals[n];
      }
    }

    /** list_objects_v2 with a continuation token; S3 chooses how many keys it returns. */
    method List(prefix: string, token: Option<string>, limit: nat) returns (page: seq<string>, truncated: bool)
      requires limit > 0
      ensures |page| <= limit
      ensures forall i, j :: 0 <= i < j < |page| ==> Less(page[i], page[j])
      ensures forall i :: 0 <= i < |page| ==> page[i] in Remaining(keys, prefix, token)
      ensures forall k :: k in Remaining(keys, prefix, token) && k !in page ==> page != [] && Less(page[|page| - 1], k)
      ensures truncated <==> exists k :: k in Remaining(keys, prefix, token) && k !in page
    {
      page := [];
      var rest := Remaining(keys, prefix, token);
      while |page| < limit && rest != {}
        invariant |page| <= limit && rest <= Remaining(keys, prefix, token)
        invariant forall k :: k in Remaining(keys, prefix, token) ==> (k in page <==> k !in rest)
        invariant forall i, j :: 0 <= i < j < |page| ==> Less(page[i], page[j])
        invariant forall i :: 0 <= i < |page| ==> page[i] in Remaining(keys, prefix, token)
        invariant forall i, k :: 0 <= i < |page| && k in rest ==> Less(page[i], k)
        decreases rest
      {
        var least := Least(rest);
        LessTotal(least, least);
        rest := rest - {least};
        page := page + [least];
      }
      truncated := rest != {};
    }

    /** delete_objects; the errors it reports for single objects are not looked at. */
    method DeleteObjects(page: seq<string>, refused: set<string>)
      modifies this
      ensures keys == set k | k in old(keys) && (k !in page || k in refused)
    {
      keys := set k | k in keys && (k !in page || k in refused);
    }

    /** The paging loop of delete_prefix. Each request may fail, and others upload before each. */
    method DeletePrefix(prefix: string, limit: nat -> nat, arrivals: seq<set<string>>, refused: set<string>,
                        failsAt: Option<nat>)
      returns (ok: bool, requests: nat)
      modifies this
      ensures keys <= old(keys) + Arrived(arrivals, requests)
      ensures forall k :: k in old(keys) + Arrived(arrivals, requests) && !HasPrefix(k, prefix) ==> k in keys
      ensures forall k :: k in old(keys) && k in refused ==> k in keys
      ensures ok ==> forall k :: k in keys && HasPrefix(k, prefix) ==> k in Arrived(arrivals, requests) || k in refused
      ensures failsAt.None? ==> ok
    {
      requests := 0;
      var token, more := None, true;
      ghost var universe := keys + Arrived(arrivals, |arrivals|);
      while more
        invariant keys <= old(keys) + Arrived(arrivals, requests) <= universe
        invariant forall k :: k in old(keys) + Arrived(arrivals, requests) && !HasPrefix(k, prefix) ==> k in keys
        invariant forall k :: k in old(keys) && k in refused ==> k in keys
        invariant forall k :: k in keys && HasPrefix(k, prefix) && (!more || !Past(k, token)) ==>
                    k in Arrived(arrivals, requests) || k in refused
        decreases more, Remaining(universe, prefix, token)
      {
        if failsAt == Some(requests) {
          return false, requests;
        }
        Receive(arrivals, requests);
        requests := requests + 1;
        ArrivedIsBounded(arrivals, requests);
        var page, truncated := List(prefix, token, limit(requests) + 1);
        if page != [] {
          if failsAt == Some(requests) {
            return false, requests;
          }
          ghost var listed := keys;
          Receive(arrivals, requests);
          requests := requests + 1;
          ArrivedIsBounded(arrivals, requests);
          DeleteObjects(page, refused);
          var last := page[|page| - 1];
          Advance(universe, prefix, token, last);
          Covered(listed, prefix, token, page);
          forall k | k in keys && HasPrefix(k, prefix) && (!truncated || !Past(k, Some(last)))
            ensures k in Arrived(arrivals, requests) || k in refused
          {
            assert k in listed && Past(k, token) ==> k in Remaining(listed, prefix, token);
          }
          token := Some(last);
        } else {
          forall k | k in keys && HasPrefix(k, prefix) ensures k in Arrived(arrivals, requests) || k in refused {
            assert Past(k, token) ==> k in Remaining(keys, prefix, token);
          }
        }
        more := truncated;
      }
      return true, requests;
    }
  }

  /** Moving the token to a key that was still to be listed leaves strictly less to list. */
  lemma Advance(universe: set<string>, prefix: string, token: Option<string>, last: string)
    requires last in Remaining(universe, prefix, token)
    ensures Remaining(universe, prefix, Some(last)) < Remaining(universe, prefix, token)
  {
    LessTotal(last, last);
    if token.Some? {
      forall k | Less(last, k) ensures Less(token.value, k) {
        LessTransitive(token.value, last, k);
      }
    }
  }

  /** Every key between the old token and the last key listed was listed. */
  lemma Covered(keys: set<string>, prefix: string, token: Option<string>, page: seq<string>)
    requires page != []
    requires forall k :: k in Remaining(keys, prefix, token) && k !in page ==> Less(page[|page| - 1], k)
    ensures forall k :: k in keys && HasPrefix(k, prefix) && !Past(k, Some(page[|page| - 1])) ==>
              k in page || !Past(k, token)
  {
  }

  // ---------------------------------------------------------------- one run's prefix

  function RunPrefix(tenant: string, run: string): string { "tenants/" + tenant + "/runs/" + run + "/" }

  predicate SlashFree(id: string) { '/' !in id }

  /** Two slash-free parts are told apart by the slash that follows them. */
  lemma {:induction false} FirstSlash(a: string, b: string, restA: string, restB: string)
    requires SlashFree(a) && SlashFree(b) && a + "/" + restA <= b + "/" + restB
    ensures a == b && restA <= restB
  {
    var x, y := a + "/" + restA, b + "/" + restB;
    if a == [] || b == [] {
      assert x[0] == y[0];
      assert a == b == [];
      assert x[1..] == restA && y[1..] == restB;
    } else {
      assert x[0] == a[0] && y[0] == b[0];
      assert x[1..] == a[1..] + "/" + restA && y[1..] == b[1..] + "/" + restB;
      FirstSlash(a[1..], b[1..], restA, restB);
      assert a == [a[0]] + a[1..] && b == [b[0]] + b[1..];
    }
  }

  /** With ids that contain no slash, a run's prefix matches its own trace keys and no other's. */
  lemma PrefixMatchesOnlyItsRun(tenant: string, run: string, otherTenant: string, otherRun: string, traceId: string)
    requires SlashFree(tenant) && SlashFree(run) && SlashFree(otherTenant) && SlashFree(otherRun)
    ensures HasPrefix(TraceKey(otherTenant, otherRun, traceId), RunPrefix(tenant, run))
       <==> tenant == otherTenant && run == otherRun
  {
    var key, prefix := TraceKey(otherTenant, otherRun, traceId), RunPrefix(tenant, run);
    var keyTail, prefixTail := "runs/" + otherRun + "/" + traceId + ".json", "runs/" + run + "/";
    assert key == "tenants/" + (otherTenant + "/" + keyTail);
    assert prefix == "tenants/" + (tenant + "/" + prefixTail);
    assert key[8..] == otherTenant + "/" + keyTail && prefix[8..] == tenant + "/" + prefixTail;
    if prefix <= key {
      assert prefix[8..] <= key[8..];
      FirstSlash(tenant, otherTenant, prefixTail, keyTail);
      assert keyTail[5..] == otherRun + "/" + (traceId + ".json") && prefixTail[5..] == run + "/" + "";
      assert prefixTail[5..] <= keyTail[5..];
      FirstSlash(run, otherRun, "", traceId + ".json");
    }
  }

  /** A stored trace: the tenant, the run and the trace id its key is made of. */
  ghost predicate IsTraceOf(key: string, tenant: string, run: string) {
    SlashFree(tenant) && SlashFree(run) && exists id :: key == TraceKey(tenant, run, id)
  }

  /** delete_s3_traces, its errors logged and dropped. However the deletion goes, every other run keeps
      all of its traces. If no request fails, what is left of the run's own was uploaded meanwhile or
      refused by S3; with neither, exactly the run's own traces are gone. */
  method DeleteRunTraces(bucket: Bucket, tenant: string, run: string, limit: nat -> nat, arrivals: seq<set<string>>,
                         refused: set<string>, failsAt: Option<nat>)
    returns (ok: bool, requests: nat)
    requires SlashFree(tenant) && SlashFree(run)
    modifies bucket
    ensures forall k, t, r :: k in old(bucket.keys) && IsTraceOf(k, t, r) && (t != tenant || r != run) ==>
        k in bucket.keys
    ensures failsAt.None? ==> ok
    ensures ok ==> forall k :: k in bucket.keys && IsTraceOf(k, tenant, run) ==>
              k in Arrived(arrivals, requests) || k in refused
    ensures ok && arrivals == [] && refused == {} ==> forall k :: IsTraceOf(k, tenant, run) ==> k !in bucket.keys
    ensures ok && arrivals == [] && refused == {} ==>
              bucket.keys == set k | k in old(bucket.keys) && !HasPrefix(k, RunPrefix(tenant, run))
  {
    ok, requests := bucket.DeletePrefix(RunPrefix(tenant, run), limit, arrivals, refused, failsAt);
    NothingArrives(requests);
    forall k, t, r | IsTraceOf(k, t, r) ensures HasPrefix(k, RunPrefix(tenant, run)) <==> t == tenant && r == run {
      var id :| k == TraceKey(t, r, id);
      PrefixMatchesOnlyItsRun(tenant, run, t, r, id);
    }
  }

  lemma {:induction false} NothingArrives(n: nat)
    ensures Arrived([], n) == {}
  {
    if n > 0 {
      NothingArrives(n - 1);
    }
  }
}
