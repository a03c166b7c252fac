/**
 * Credit extraction: TMDB_get_movie_credits_name and
 * TMDB_get_tv_series_credits_names, which differ only in the URL they fetch.
 * A credits reply is reduced to the first cast names, the directors and the
 * writers.
 */
module Credits {
  import opened Outcomes
  import opened Text
  import opened Catalog

  const Director := "Director"
  const Writer := "Writer"

  /** The extractor's result: `{}`, or the dict with casts, directors and writers. */
  datatype Credits = NoCredits | Credits(casts: seq<string>, directors: seq<string>, writers: seq<string>)

  predicate AllNamed(cast: seq<CastMember>) {
    forall i :: 0 <= i < |cast| ==> cast[i].name.Some?
  }

  /** The names of the cast members, in order. */
  function CastNames(cast: seq<CastMember>): seq<string>
    requires AllNamed(cast)
  {
    seq(|cast|, i requires 0 <= i < |cast| => cast[i].name.value)
  }

  /** Every crew member doing `job` has a name. */
  predicate NamedWhen(crew: seq<CrewMember>, job: string) {
    forall i :: 0 <= i < |crew| && crew[i].job == Some(job) ==> crew[i].name.Some?
  }

  /**
   * The crew loop does not raise: every member has a job, and every director
   * and writer has a name.
   */
  predicate CrewReadable(crew: seq<CrewMember>) {
    && (forall i :: 0 <= i < |crew| ==> crew[i].job.Some?)
    && NamedWhen(crew, Director)
    && NamedWhen(crew, Writer)
  }

  /** The names of the crew members whose job is exactly `job`, in crew order. */
  function NamesWithJob(crew: seq<CrewMember>, job: string): seq<string>
    requires NamedWhen(crew, job)
  {
    if crew == [] then []
    else
      var last := crew[|crew| - 1];
      NamesWithJob(crew[..|crew| - 1], job) + (if last.job == Some(job) then [last.name.value] else [])
  }

  /** What the extractor returns, or raises, for a credits reply. */
  function CreditsOf(reply: Reply<CreditsPayload>, limit: int): Outcome<Credits> {
    if !reply.Succeeded() || reply.body.cast.None? then Ok(NoCredits)
    else
      var kept := PyPrefix(reply.body.cast.value, limit);
      if !AllNamed(kept) || reply.body.crew.None? || !CrewReadable(reply.body.crew.value) then
        Raise(KeyError)
      else
        var crew := reply.body.crew.value;
        Ok(Credits(CastNames(kept), NamesWithJob(crew, Director), NamesWithJob(crew, Writer)))
  }

  /** The extractor: clamp the limit, collect cast names, then walk the crew once. */
  method ExtractCredits(reply: Reply<CreditsPayload>, limitNumber: int) returns (r: Outcome<Credits>)
    ensures r == CreditsOf(reply, limitNumber)
  {
    if reply.status != 200 {
      return Ok(NoCredits);
    }
    if reply.body.cast.None? {
      return Ok(NoCredits);
    }
    var cast := reply.body.cast.value;
    var limit := limitNumber;
    if limit > |cast| {
      limit := |cast|;
    }
    var casts := PyPrefix(cast, limit);
    assert casts == PyPrefix(cast, limitNumber);

    var castsName: seq<string> := [];
    for i := 0 to |casts|
      invariant AllNamed(casts[..i])
      invariant castsName == CastNames(casts[..i])
    {
      if casts[i].name.None? {
        return Raise(KeyError);
      }
      castsName := castsName + [casts[i].name.value];
    }
    assert casts[..|casts|] == casts;

    if reply.body.crew.None? {
      return Raise(KeyError);
    }
    var crew := reply.body.crew.value;
    var directorsName: seq<string> := [];
    var writersName: seq<string> := [];
    for i := 0 to |crew|
      invariant CrewReadable(crew[..i])
      invariant directorsName == NamesWithJob(crew[..i], Director)
      invariant writersName == NamesWithJob(crew[..i], Writer)
    {
      var item := crew[i];
      assert crew[..i + 1][..i] == crew[..i];
      if item.job.None? {
        return Raise(KeyError);
      }
      if item.job.value == Director {
        if item.name.None? {
          return Raise(KeyError);
        }
        directorsName := directorsName + [item.name.value];
      } else if item.job.value == Writer {
        if item.name.None? {
          return Raise(KeyError);
        }
        writersName := writersName + [item.name.value];
      }
    }
    assert crew[..|crew|] == crew;
    return Ok(Credits(castsName, directorsName, writersName));
  }

  // ---------------------------------------------------------------- properties

  /** `{}` comes back exactly for a failed request or a payload without `cast`. */
  lemma NoCreditsExactly(reply: Reply<CreditsPayload>, limit: int)
    ensures CreditsOf(reply, limit) == Ok(NoCredits) <==> !reply.Succeeded() || reply.body.cast.None?
  {
  }

  /**
   * A payload with `cast` but without `crew` makes the extractor raise
   * KeyError rather than return `{}`.
   */
  lemma MissingCrewRaises(reply: Reply<CreditsPayload>, limit: int)
    requires reply.Succeeded() && reply.body.cast.Some? && reply.body.crew.None?
    ensures CreditsOf(reply, limit).Raise?
  {
  }

  /**
   * The cast list holds the names of the first min(limit, |cast|) cast
   * members, in payload order.
   */
  lemma CastIsBoundedPrefix(reply: Reply<CreditsPayload>, limit: nat)
    requires CreditsOf(reply, limit).Ok? && CreditsOf(reply, limit).value.Credits?
    ensures var cast := reply.body.cast.value;
            var casts := CreditsOf(reply, limit).value.casts;
            && |casts| == (if limit < |cast| then limit else |cast|)
            && forall i :: 0 <= i < |casts| ==> cast[i].name == Some(casts[i])
  {
  }

  /** Selecting by job commutes with concatenation: crew order is kept, duplicates too. */
  lemma {:induction false} NamesWithJobAppend(a: seq<CrewMember>, b: seq<CrewMember>, job: string)
    requires NamedWhen(a, job) && NamedWhen(b, job)
    ensures NamedWhen(a + b, job)
    ensures NamesWithJob(a + b, job) == NamesWithJob(a, job) + NamesWithJob(b, job)
    decreases |b|
  {
    assert NamedWhen(a + b, job) by {
      forall i | 0 <= i < |a + b| && (a + b)[i].job == Some(job) ensures (a + b)[i].name.Some? {
        if i >= |a| { assert (a + b)[i] == b[i - |a|]; }
      }
    }
    if b != [] {
      var b' := b[..|b| - 1];
      assert (a + b)[..|a + b| - 1] == a + b';
      assert NamedWhen(b', job);
      NamesWithJobAppend(a, b', job);
    } else {
      assert a + b == a;
    }
  }

  /**
   * A name is selected exactly when some crew member doing `job` carries it.
   */
  lemma {:induction false} NamesWithJobMembers(crew: seq<CrewMember>, job: string, n: string)
    requires NamedWhen(crew, job)
    ensures n in NamesWithJob(crew, job) <==>
            exists i :: 0 <= i < |crew| && crew[i].job == Some(job) && crew[i].name == Some(n)
    decreases |crew|
  {
    if crew != [] {
      var init := crew[..|crew| - 1];
      assert NamedWhen(init, job);
      NamesWithJobMembers(init, job, n);
      if exists i :: 0 <= i < |init| && init[i].job == Some(job) && init[i].name == Some(n) {
        var i :| 0 <= i < |init| && init[i].job == Some(job) && init[i].name == Some(n);
        assert crew[i] == init[i];
      }
      if exists i :: 0 <= i < |crew| && crew[i].job == Some(job) && crew[i].name == Some(n) {
        var i :| 0 <= i < |crew| && crew[i].job == Some(job) && crew[i].name == Some(n);
        if i < |init| {
          assert init[i] == crew[i];
        }
      }
    }
  }

  /** One name per matching crew member: the selection never grows beyond the crew. */
  lemma {:induction false} NamesWithJobLength(crew: seq<CrewMember>, job: string)
    requires NamedWhen(crew, job)
    ensures |NamesWithJob(crew, job)| <= |crew|
    ensures (forall i :: 0 <= i < |crew| ==> crew[i].job == Some(job)) ==> |NamesWithJob(crew, job)| == |crew|
    decreases |crew|
  {
    if crew != [] {
      var init := crew[..|crew| - 1];
      assert NamedWhen(init, job);
      NamesWithJobLength(init, job);
    }
  }
}
