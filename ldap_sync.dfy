/** The LDAP synchronisation command: for every LDAP configuration, look
    up the realm of the configuration's organisation and create a new
    import job for it unless its latest import job is still waiting,
    running or cancelling. A realm is named by its organisation's key and
    holds its import jobs' states, newest first, so that a job created
    now becomes the realm's `first()`. */
module LdapSync {
  import opened Wrappers
  import opened BackgroundJobs

  /** The rule at the heart of the command: a realm with no import job, or
      whose latest one has ended, gets a new one; one whose latest job is
      still waiting, running or cancelling does not. */
  predicate MayCreate(jobs: seq<JobState>)
    ensures MayCreate(jobs) <==> jobs == [] || jobs[0] in {Finished, Failed, Cancelled}
    ensures jobs != [] && jobs[0] in {Waiting, Running, Cancelling} ==> !MayCreate(jobs)
  {
    jobs == [] || Terminal(jobs[0])
  }

  /** The realms after the command ran over `configs`, and the key of the
      configuration whose realm was missing, if `get_object_or_404` raised
      (which ends the command at that configuration). */
  function Sync(realms: map<int, seq<JobState>>, configs: seq<int>): (r: (map<int, seq<JobState>>, Option<int>))
    ensures r.0.Keys == realms.Keys
    ensures r.1.Some? ==> r.1.value in configs && r.1.value !in realms
    ensures r.1.None? ==> forall c :: c in configs ==> c in realms
    decreases |configs|
  {
    if configs == [] then (realms, None)
    else
      var c := configs[0];
      if c !in realms then (realms, Some(c))
      else
        var next := if MayCreate(realms[c]) then realms[c := [Waiting] + realms[c]] else realms;
        Sync(next, configs[1..])
  }

  /** Where every configuration has a realm and the configurations are
      distinct (they are the table's rows), the command creates exactly
      one waiting job for each configured realm whose latest job has
      ended, and touches nothing else. */
  lemma {:induction false} SyncEffect(realms: map<int, seq<JobState>>, configs: seq<int>)
    requires forall c :: c in configs ==> c in realms
    requires forall i, j :: 0 <= i < j < |configs| ==> configs[i] != configs[j]
    ensures Sync(realms, configs).1 == None
    ensures forall k :: k in realms ==>
      Sync(realms, configs).0[k] ==
        if k in configs && MayCreate(realms[k]) then [Waiting] + realms[k] else realms[k]
    decreases |configs|
  {
    if configs != [] {
      var c := configs[0];
      var next := if MayCreate(realms[c]) then realms[c := [Waiting] + realms[c]] else realms;
      forall i, j | 0 <= i < j < |configs[1..]|
        ensures configs[1..][i] != configs[1..][j]
      {
        assert configs[1..][i] == configs[i + 1] && configs[1..][j] == configs[j + 1];
      }
      SyncEffect(next, configs[1..]);
      forall k | k in realms
        ensures Sync(realms, configs).0[k] ==
          if k in configs && MayCreate(realms[k]) then [Waiting] + realms[k] else realms[k]
      {
        assert k in configs <==> k == c || k in configs[1..];
        if k == c {
          assert c !in configs[1..] by {
            forall j | 0 <= j < |configs[1..]| ensures configs[1..][j] != c {
              assert configs[1..][j] == configs[j + 1];
            }
          }
        }
      }
    }
  }

  /** A second run straight after a successful one creates nothing: every
      realm it touched now starts with a waiting job. */
  lemma SyncIdempotent(realms: map<int, seq<JobState>>, configs: seq<int>)
    requires forall c :: c in configs ==> c in realms
    requires forall i, j :: 0 <= i < j < |configs| ==> configs[i] != configs[j]
    ensures Sync(Sync(realms, configs).0, configs) == Sync(realms, configs)
  {
    var once := Sync(realms, configs).0;
    SyncEffect(realms, configs);
    SyncEffect(once, configs);
    forall k | k in once
      ensures Sync(once, configs).0[k] == once[k]
    {
      if k in configs && MayCreate(realms[k]) {
        assert once[k][0] == Waiting;
      }
    }
  }

  /** A realm whose latest job is waiting, running or cancelling never
      gets a second one, whatever the configurations say. */
  lemma {:induction false} NoJobBesideActive(realms: map<int, seq<JobState>>, configs: seq<int>, k: int)
    requires k in realms && realms[k] != [] && !Terminal(realms[k][0])
    ensures Sync(realms, configs).0[k] == realms[k]
    decreases |configs|
  {
    if configs != [] && configs[0] in realms {
      var c := configs[0];
      var next := if MayCreate(realms[c]) then realms[c := [Waiting] + realms[c]] else realms;
      NoJobBesideActive(next, configs[1..], k);
    }
  }

  /** A missing realm ends the command: the configurations before it have
      been handled, the ones after it have not. */
  lemma {:induction false} SyncStopsAtMissingRealm(realms: map<int, seq<JobState>>, configs: seq<int>, i: nat)
    requires i < |configs| && configs[i] !in realms
    requires forall j :: 0 <= j < i ==> configs[j] in realms
    ensures Sync(realms, configs) == (Sync(realms, configs[..i]).0, Some(configs[i]))
    decreases i
  {
    if i > 0 {
      var c := configs[0];
      var next := if MayCreate(realms[c]) then realms[c := [Waiting] + realms[c]] else realms;
      assert configs[1..][..i - 1] == configs[..i][1..];
      SyncStopsAtMissingRealm(next, configs[1..], i - 1);
    }
  }

  /** The import-job table, by realm. */
  class ImportJobs {
    var realms: map<int, seq<JobState>>

    constructor (realms: map<int, seq<JobState>>)
      ensures this.realms == realms
    {
      this.realms := realms;
    }

    /** `handle`: the loop over the configurations. */
    method Handle(configs: seq<int>) returns (notFound: Option<int>)
      modifies this
      ensures (realms, notFound) == Sync(old(realms), configs)
    {
      var i := 0;
      while i < |configs|
        invariant 0 <= i <= |configs|
        invariant Sync(realms, configs[i..]) == Sync(old(realms), configs)
      {
        var c := configs[i];
        assert configs[i..][1..] == configs[i + 1..];
        if c !in realms {
          return Some(c);
        }
        var latest := realms[c];
        if latest == [] || latest[0] == Finished || latest[0] == Failed || latest[0] == Cancelled {
          realms := realms[c := [Waiting] + latest];
        }
        i := i + 1;
      }
      notFound := None;
    }
  }
}
