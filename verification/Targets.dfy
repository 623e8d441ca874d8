/** The upstream targets of a route and the pieces both balancers share. */
module Targets {

  /** A URL is the string its `String()` method renders; parsing is not part of the model. */
  datatype Target = Target(url: string, weight: int)

  /** What `Next` returns: a URL or ErrNoHealthyTargets. */
  datatype Selection = Selected(url: string) | NoHealthyTargets

  ghost predicate DistinctUrls(targets: seq<Target>) {
    forall i, j :: 0 <= i < j < |targets| ==> targets[i].url != targets[j].url
  }

  /** No earlier target has the URL of target i, so a search by URL can reach it. */
  ghost predicate IsFirst(targets: seq<Target>, i: int)
    requires 0 <= i < |targets|
  {
    forall j :: 0 <= j < i ==> targets[j].url != targets[i].url
  }

  ghost predicate HasUrl(targets: seq<Target>, url: string) {
    exists i :: 0 <= i < |targets| && targets[i].url == url
  }

  /** The first target with the URL among those at or after `from`, or |targets|. */
  function FindFrom(targets: seq<Target>, url: string, from: nat): (i: nat)
    requires from <= |targets|
    ensures from <= i <= |targets|
    ensures i < |targets| ==> targets[i].url == url
    ensures forall j :: from <= j < i ==> targets[j].url != url
    decreases |targets| - from
  {
    if from == |targets| || targets[from].url == url then from
    else FindFrom(targets, url, from + 1)
  }

  function Find(targets: seq<Target>, url: string): (i: nat)
    ensures i <= |targets|
    ensures i < |targets| ==> targets[i].url == url && IsFirst(targets, i)
    ensures i == |targets| <==> !HasUrl(targets, url)
  {
    FindFrom(targets, url, 0)
  }
}
