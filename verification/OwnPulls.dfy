/** The wakes on a captain's own pull request (routes/github.py): which issue a merge, or a failed run, wakes. */
module OwnPulls {
  import opened Common
  import opened Lru
  import opened IssueLedgers
  import opened Text

  function Chosen(candidates: seq<IssueRef>, named: set<int>): seq<IssueRef> {
    if named == {} then candidates else NamedOnly(candidates, named)
  }

  function NamedOnly(refs: seq<IssueRef>, named: set<int>): seq<IssueRef> {
    if refs == [] then []
    else
      var n := |refs| - 1;
      var before := NamedOnly(refs[..n], named);
      if refs[n].number in named then before + [refs[n]] else before
  }

  datatype OwnPull = WakeOn(ref: IssueRef) | NoOpenHandoff | AmbiguousHandoff | Parked | Untrusted

  /** `_merge_target` and `_wake_on_own_pull`: which issue a merge, or a failed run, on a captain's pull
      request wakes. `admitted` is whether its actor is the captain's bot or on the allow-list. */
  function WakeOnOwnPull(d: Issues, repo: string, named: set<int>, admitted: bool): OwnPull {
    var chosen := Chosen(HandoffsAmong(d, d.order, repo), named);
    if chosen == [] then NoOpenHandoff
    else if |chosen| > 1 then AmbiguousHandoff
    else if ReasonToDrop(d, chosen[0].url) == Some(DoNotWork) then Parked
    else if !admitted then Untrusted
    else WakeOn(chosen[0])
  }

  /** An issue the pull request may be about: an open handoff of its repo that it names, if it names any. */
  predicate Candidate(d: Issues, url: string, repo: string, named: set<int>) {
    && url in d.items && d.items[url].open && "handoff" in d.items[url].labels
    && d.items[url].ref.Some? && Lower(d.items[url].ref.value.repo) == Lower(repo)
    && (named == {} || d.items[url].ref.value.number in named)
  }

  function CandidateKeys(d: Issues, urls: seq<string>, repo: string, named: set<int>): seq<string> {
    if urls == [] then []
    else
      var n := |urls| - 1;
      var before := CandidateKeys(d, urls[..n], repo, named);
      if Candidate(d, urls[n], repo, named) then before + [urls[n]] else before
  }

  lemma {:induction false} CandidatesOf(d: Issues, urls: seq<string>, repo: string, named: set<int>)
    requires NoDup(urls)
    ensures NoDup(CandidateKeys(d, urls, repo, named))
    ensures forall url :: url in CandidateKeys(d, urls, repo, named) <==> url in urls && Candidate(d, url, repo, named)
    ensures var keys, chosen := CandidateKeys(d, urls, repo, named), Chosen(HandoffsAmong(d, urls, repo), named);
            && |chosen| == |keys|
            && forall i :: 0 <= i < |keys| ==> keys[i] in d.items && d.items[keys[i]].ref == Some(chosen[i])
  {
    if urls != [] {
      var n := |urls| - 1;
      CandidatesOf(d, urls[..n], repo, named);
      assert urls == urls[..n] + [urls[n]];
      var before := HandoffsAmong(d, urls[..n], repo);
      if urls[n] in d.items && IsHandoffOf(d.items[urls[n]], repo) {
        var ref := d.items[urls[n]].ref.value;
        assert (before + [ref])[..|before|] == before;
      }
    }
  }

  ghost predicate OnlyCandidate(d: Issues, url: string, repo: string, named: set<int>) {
    Candidate(d, url, repo, named) && forall other :: Candidate(d, other, repo, named) ==> other == url
  }

  /** What a pull request wakes, or why it wakes nothing: there is no candidate, or more than one, or the only one
      is parked, or the actor is not admitted. */
  lemma OwnPullOutcome(d: Issues, repo: string, named: set<int>, admitted: bool)
    requires d.Valid() && RefsKeyed(d)
    ensures var outcome := WakeOnOwnPull(d, repo, named, admitted);
            && (outcome == NoOpenHandoff <==> forall url :: !Candidate(d, url, repo, named))
            && (outcome == AmbiguousHandoff <==>
                  exists u, v :: u != v && Candidate(d, u, repo, named) && Candidate(d, v, repo, named))
            && (outcome == Parked <==>
                  exists url :: OnlyCandidate(d, url, repo, named) && "Do Not Work" in d.items[url].labels)
            && (outcome == Untrusted <==>
                  && !admitted
                  && exists url :: OnlyCandidate(d, url, repo, named) && "Do Not Work" !in d.items[url].labels)
            && (outcome.WakeOn? ==> OnlyCandidate(d, outcome.ref.url, repo, named))
  {
    var keys := CandidateKeys(d, d.order, repo, named);
    var chosen := Chosen(HandoffsAmong(d, d.order, repo), named);
    CandidatesOf(d, d.order, repo, named);
    forall url ensures Candidate(d, url, repo, named) <==> url in keys {
    }
    if |keys| == 1 {
      assert chosen[0].url == keys[0];
      assert forall url :: url in keys <==> url == keys[0];
      assert OnlyCandidate(d, keys[0], repo, named);
    } else if |keys| > 1 {
      assert keys[0] in keys && keys[1] in keys && keys[0] != keys[1];
    } else {
      assert keys == [];
    }
  }

  /** A pull request wakes an issue exactly when that issue, held open and labelled under a reference to the pull
      request's own repo, is the only one it may be about, is not parked, and the actor is admitted. */
  lemma OwnPullWakesTheOnlyCandidate(d: Issues, repo: string, named: set<int>, admitted: bool, ref: IssueRef)
    requires d.Valid() && RefsKeyed(d)
    ensures WakeOnOwnPull(d, repo, named, admitted) == WakeOn(ref) <==>
              && ref.url in d.items && d.items[ref.url].ref == Some(ref) && Lower(ref.repo) == Lower(repo)
              && d.items[ref.url].open && "handoff" in d.items[ref.url].labels
              && (named == {} || ref.number in named)
              && (forall url :: Candidate(d, url, repo, named) ==> url == ref.url)
              && "Do Not Work" !in d.items[ref.url].labels && admitted
  {
    var keys := CandidateKeys(d, d.order, repo, named);
    var chosen := Chosen(HandoffsAmong(d, d.order, repo), named);
    CandidatesOf(d, d.order, repo, named);
    forall url ensures Candidate(d, url, repo, named) <==> url in keys {
    }
    if |keys| == 1 {
      assert chosen[0].url == keys[0];
      assert forall url :: url in keys <==> url == keys[0];
    } else if |keys| > 1 {
      assert keys[0] in keys && keys[1] in keys && keys[0] != keys[1];
    }
  }
}
