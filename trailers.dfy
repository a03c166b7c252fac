/**
 * Trailer selection: TMDB_get_trailer. Videos are sorted into three buckets in
 * arrival order (official trailers, other trailers, everything else), the
 * buckets are concatenated and the result is cut to the limit.
 */
module Trailers {
  import opened Outcomes
  import opened Text
  import opened Catalog

  const YouTubeWatch := "https://www.youtube.com/watch?v="
  const YouTube := "YouTube"
  const TrailerType := "Trailer"

  /** The number of trailers asked for unless told otherwise. */
  const DefaultTrailerLimit := 1

  /** The dict built for one video: name, official, type, and url when playable. */
  datatype Trailer = Trailer(name: string, official: bool, kind: string, url: Option<string>)

  /** The loop reads this video without KeyError: `key` is read only for YouTube videos. */
  predicate Readable(v: Video) {
    && v.name.Some? && v.official.Some? && v.kind.Some? && v.site.Some?
    && (v.site.value == YouTube ==> v.key.Some?)
  }

  predicate AllReadable(vs: seq<Video>) {
    forall i :: 0 <= i < |vs| ==> Readable(vs[i])
  }

  /**
   * The entry built for one video. It carries a url exactly when the video is
   * on YouTube with a non-empty key, and is kept either way.
   */
  function Candidate(v: Video): (t: Trailer)
    requires Readable(v)
    ensures t.name == v.name.value && t.official == v.official.value && t.kind == v.kind.value
    ensures t.url.Some? <==> v.site == Some(YouTube) && v.key.Some? && v.key.value != ""
    ensures t.url.Some? ==> t.url.value == YouTubeWatch + v.key.value
  {
    Trailer(v.name.value, v.official.value, v.kind.value,
            if v.site.value == YouTube && v.key.value != "" then Some(YouTubeWatch + v.key.value) else None)
  }

  /** The entries for the videos, in arrival order. */
  function Candidates(vs: seq<Video>): seq<Trailer>
    requires AllReadable(vs)
  {
    seq(|vs|, i requires 0 <= i < |vs| => Candidate(vs[i]))
  }

  /** Priority bucket: 0 official trailer, 1 other trailer, 2 anything else. */
  function Rank(t: Trailer): nat {
    if t.kind == TrailerType then (if t.official then 0 else 1) else 2
  }

  /** The entries of bucket b, in arrival order. */
  function Only(ts: seq<Trailer>, b: nat): seq<Trailer> {
    if ts == [] then []
    else Only(ts[..|ts| - 1], b) + (if Rank(ts[|ts| - 1]) == b then [ts[|ts| - 1]] else [])
  }

  /** The three buckets, concatenated in priority order. */
  function Ranked(ts: seq<Trailer>): seq<Trailer> {
    Only(ts, 0) + Only(ts, 1) + Only(ts, 2)
  }

  /** What TMDB_get_trailer returns, or raises, for a media type and a videos reply. */
  function TrailersOf(mediaType: string, reply: Reply<VideosPayload>, limit: int): Outcome<seq<Trailer>> {
    if mediaType != MovieKind && mediaType != TvKind then Raise(UnboundLocalError)
    else if !reply.Succeeded() then Ok([])
    else if reply.body.results.None? || !AllReadable(reply.body.results.value) then Raise(KeyError)
    else Ok(PyPrefix(Ranked(Candidates(reply.body.results.value)), limit))
  }

  /** TMDB_get_trailer, with the fetch given as a reply. */
  method SelectTrailers(mediaType: string, reply: Reply<VideosPayload>, trailerLimit: int)
    returns (r: Outcome<seq<Trailer>>)
    ensures r == TrailersOf(mediaType, reply, trailerLimit)
  {
    if mediaType != MovieKind && mediaType != TvKind {
      // no URL was bound for the request
      return Raise(UnboundLocalError);
    }
    if reply.status != 200 {
      return Ok([]);
    }
    if reply.body.results.None? {
      return Raise(KeyError);
    }
    var videos := reply.body.results.value;
    var officialTrailers: seq<Trailer> := [];
    var nonOfficialTrailers: seq<Trailer> := [];
    var otherResults: seq<Trailer> := [];
    for i := 0 to |videos|
      invariant AllReadable(videos[..i])
      invariant officialTrailers == Only(Candidates(videos[..i]), 0)
      invariant nonOfficialTrailers == Only(Candidates(videos[..i]), 1)
      invariant otherResults == Only(Candidates(videos[..i]), 2)
    {
      var item := videos[i];
      if item.name.None? || item.official.None? || item.kind.None? {
        return Raise(KeyError);
      }
      var temp := Trailer(item.name.value, item.official.value, item.kind.value, None);
      // both branches of the source attach the url the same way
      if item.site.None? {
        return Raise(KeyError);
      }
      if item.site.value == YouTube {
        if item.key.None? {
          return Raise(KeyError);
        }
        if item.key.value != "" {
          temp := temp.(url := Some(YouTubeWatch + item.key.value));
        }
      }
      CandidatesSnoc(videos, i);
      OnlySnoc(Candidates(videos[..i]), temp);
      if item.kind.value == TrailerType {
        if item.official.value {
          officialTrailers := officialTrailers + [temp];
        } else {
          nonOfficialTrailers := nonOfficialTrailers + [temp];
        }
      } else {
        otherResults := otherResults + [temp];
      }
    }
    assert videos[..|videos|] == videos;
    var results := officialTrailers + nonOfficialTrailers + otherResults;
    var limit := trailerLimit;
    if limit > |results| {
      limit := |results|;
    }
    return Ok(PyPrefix(results, limit));
  }

  // ---------------------------------------------------------------- properties

  lemma CandidatesSnoc(vs: seq<Video>, i: nat)
    requires i < |vs| && AllReadable(vs[..i + 1])
    ensures AllReadable(vs[..i])
    ensures Candidates(vs[..i + 1]) == Candidates(vs[..i]) + [Candidate(vs[i])]
  {
    assert forall k :: 0 <= k < i ==> vs[..i][k] == vs[..i + 1][k];
  }

  /** Appending an entry appends it to its own bucket only. */
  lemma OnlySnoc(ts: seq<Trailer>, t: Trailer)
    ensures forall b: nat :: Only(ts + [t], b) == Only(ts, b) + (if Rank(t) == b then [t] else [])
  {
    assert (ts + [t])[..|ts|] == ts;
  }

  /** Every entry of bucket b has rank b. */
  lemma {:induction false} OnlyHasRank(ts: seq<Trailer>, b: nat)
    ensures forall t :: t in Only(ts, b) ==> Rank(t) == b
    decreases |ts|
  {
    if ts != [] {
      OnlyHasRank(ts[..|ts| - 1], b);
    }
  }

  /** Filtering a concatenation filters each part. */
  lemma {:induction false} OnlyAppend(a: seq<Trailer>, c: seq<Trailer>, b: nat)
    ensures Only(a + c, b) == Only(a, b) + Only(c, b)
    decreases |c|
  {
    if c == [] {
      assert a + c == a;
    } else {
      assert (a + c)[..|a + c| - 1] == a + c[..|c| - 1];
      OnlyAppend(a, c[..|c| - 1], b);
    }
  }

  /** Filtering a sequence all of one bucket keeps it whole or drops it whole. */
  lemma {:induction false} OnlyOfUniform(ts: seq<Trailer>, b: nat, b': nat)
    requires forall t :: t in ts ==> Rank(t) == b'
    ensures Only(ts, b) == if b == b' then ts else []
    decreases |ts|
  {
    if ts != [] {
      assert ts[|ts| - 1] in ts;
      OnlyOfUniform(ts[..|ts| - 1], b, b');
      assert ts[..|ts| - 1] + [ts[|ts| - 1]] == ts;
    }
  }

  /** There is no bucket past the third. */
  lemma {:induction false} OnlyBeyondRanks(ts: seq<Trailer>, b: nat)
    requires b > 2
    ensures Only(ts, b) == []
    decreases |ts|
  {
    if ts != [] {
      OnlyBeyondRanks(ts[..|ts| - 1], b);
    }
  }

  /** Bucket b of bucket b' is the whole bucket when b == b', and empty otherwise. */
  lemma OnlyOfBucket(ts: seq<Trailer>, b: nat, b': nat)
    ensures Only(Only(ts, b'), b) == if b == b' then Only(ts, b') else []
  {
    OnlyHasRank(ts, b');
    OnlyOfUniform(Only(ts, b'), b, b');
  }

  /** Bucket b of the ranked list is bucket b of the arrivals, untouched. */
  lemma RankedBucket(ts: seq<Trailer>, b: nat)
    ensures Only(Ranked(ts), b) == Only(ts, b)
  {
    var o0, o1, o2 := Only(ts, 0), Only(ts, 1), Only(ts, 2);
    calc {
      Only(Ranked(ts), b);
      { OnlyAppend(o0 + o1, o2, b); }
      Only(o0 + o1, b) + Only(o2, b);
      { OnlyAppend(o0, o1, b); }
      Only(o0, b) + Only(o1, b) + Only(o2, b);
      { OnlyOfBucket(ts, b, 0); OnlyOfBucket(ts, b, 1); OnlyOfBucket(ts, b, 2); }
      (if b == 0 then o0 else []) + (if b == 1 then o1 else []) + (if b == 2 then o2 else []);
    }
    if b > 2 {
      OnlyBeyondRanks(ts, b);
    }
  }

  /** Bucketing is a permutation: nothing is lost, duplicated or invented. */
  lemma {:induction false} RankedIsPermutation(ts: seq<Trailer>)
    ensures multiset(Ranked(ts)) == multiset(ts)
    ensures |Ranked(ts)| == |ts|
    decreases |ts|
  {
    if ts != [] {
      var init := ts[..|ts| - 1];
      var last := ts[|ts| - 1];
      RankedIsPermutation(init);
      assert ts == init + [last];
      assert multiset(Ranked(ts)) == multiset(Ranked(init)) + multiset{last};
    }
    assert |multiset(Ranked(ts))| == |Ranked(ts)|;
  }

  /** The bucket of a prefix is a prefix of the bucket. */
  lemma {:induction false} OnlyOfPrefix(ts: seq<Trailer>, n: nat, b: nat)
    requires n <= |ts|
    ensures Only(ts[..n], b) <= Only(ts, b)
    decreases |ts|
  {
    if n < |ts| {
      var init := ts[..|ts| - 1];
      assert ts[..n] == init[..n];
      OnlyOfPrefix(init, n, b);
    } else {
      assert ts[..n] == ts;
    }
  }

  /** The ranked list runs from official trailers through other trailers to the rest. */
  lemma RankedIsOrdered(ts: seq<Trailer>)
    ensures forall i, j :: 0 <= i < j < |Ranked(ts)| ==> Rank(Ranked(ts)[i]) <= Rank(Ranked(ts)[j])
  {
    OnlyHasRank(ts, 0);
    OnlyHasRank(ts, 1);
    OnlyHasRank(ts, 2);
    var r := Ranked(ts);
    var n0, n1 := |Only(ts, 0)|, |Only(ts, 1)|;
    forall i | 0 <= i < |r|
      ensures Rank(r[i]) == if i < n0 then 0 else if i < n0 + n1 then 1 else 2
    {
      if i < n0 {
        assert r[i] == Only(ts, 0)[i];
      } else if i < n0 + n1 {
        assert r[i] == Only(ts, 1)[i - n0];
      } else {
        assert r[i] == Only(ts, 2)[i - n0 - n1];
      }
    }
  }

  /**
   * The selection: a failed request gives no trailers; otherwise the result is
   * a prefix of the ranked list of length min(limit, number of videos), every
   * official trailer comes before every other trailer and those before every
   * other video, each bucket keeps arrival order, and every entry is the one
   * built for some video of the payload.
   */
  lemma SelectionProperties(mediaType: string, reply: Reply<VideosPayload>, limit: nat)
    requires mediaType == MovieKind || mediaType == TvKind
    requires !reply.Succeeded() || (reply.body.results.Some? && AllReadable(reply.body.results.value))
    ensures !reply.Succeeded() ==> TrailersOf(mediaType, reply, limit) == Ok([])
    ensures reply.Succeeded() ==>
              var vs := reply.body.results.value;
              var ts := Candidates(vs);
              var r := TrailersOf(mediaType, reply, limit).value;
              && |r| == (if limit < |vs| then limit else |vs|)
              && r == Ranked(ts)[..|r|]
              && (forall i, j :: 0 <= i < j < |r| ==> Rank(r[i]) <= Rank(r[j]))
              && (forall b: nat :: Only(r, b) <= Only(ts, b))
              && (forall i :: 0 <= i < |r| ==> exists k :: 0 <= k < |vs| && r[i] == Candidate(vs[k]))
  {
    if reply.Succeeded() {
      var vs := reply.body.results.value;
      var ts := Candidates(vs);
      var r := TrailersOf(mediaType, reply, limit).value;
      RankedIsPermutation(ts);
      RankedIsOrdered(ts);
      assert r == Ranked(ts)[..|r|];
      forall b: nat ensures Only(r, b) <= Only(ts, b) {
        OnlyOfPrefix(Ranked(ts), |r|, b);
        RankedBucket(ts, b);
      }
      forall i | 0 <= i < |r| ensures exists k :: 0 <= k < |vs| && r[i] == Candidate(vs[k]) {
        assert r[i] in multiset(Ranked(ts));
        assert r[i] in ts;
        var k :| 0 <= k < |ts| && ts[k] == r[i];
        assert r[i] == Candidate(vs[k]);
      }
    }
  }

  /**
   * With no official trailers and at least `limit` other trailers, the result
   * is the first `limit` other trailers in arrival order.
   */
  lemma NoOfficialTrailers(mediaType: string, reply: Reply<VideosPayload>, limit: nat)
    requires mediaType == MovieKind || mediaType == TvKind
    requires reply.Succeeded() && reply.body.results.Some? && AllReadable(reply.body.results.value)
    requires Only(Candidates(reply.body.results.value), 0) == []
    requires limit <= |Only(Candidates(reply.body.results.value), 1)|
    ensures TrailersOf(mediaType, reply, limit) == Ok(Only(Candidates(reply.body.results.value), 1)[..limit])
  {
    var ts := Candidates(reply.body.results.value);
    var ones := Only(ts, 1);
    assert Ranked(ts) == ones + Only(ts, 2);
    RankedIsPermutation(ts);
    assert PyPrefix(Ranked(ts), limit) == Ranked(ts)[..limit];
    assert Ranked(ts)[..limit] == ones[..limit];
  }
}
