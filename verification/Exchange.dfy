/** internal/engine/exchange/exchange.go: bindings and routing by topic. */
module Exchanges {
  import opened TopicMatch

  datatype Binding = Binding(key: string, destination: string)

  // The pattern of the binding means the key.
  ghost predicate Bound(b: Binding, key: string) { Means(Split(b.key, '.'), Split(key, '.')) }

  ghost function Destinations(bindings: seq<Binding>, key: string): seq<string> {
    if bindings == [] then [] else
      var b := bindings[|bindings| - 1];
      Destinations(bindings[..|bindings| - 1], key) + if Bound(b, key) then [b.destination] else []
  }

  predicate Ascending(at: seq<nat>) { forall i, j :: 0 <= i < j < |at| ==> at[i] < at[j] }

  // dests are the destinations of the bindings at the places at: all that mean the key, each once, in order.
  ghost predicate RoutedBy(bindings: seq<Binding>, key: string, at: seq<nat>, dests: seq<string>) {
    && Ascending(at) && |at| == |dests|
    && (forall i :: 0 <= i < |at| ==> at[i] < |bindings| && dests[i] == bindings[at[i]].destination)
    && (forall i: nat :: i in at <==> i < |bindings| && Bound(bindings[i], key))
  }

  lemma {:induction false} DestinationsPlaces(bindings: seq<Binding>, key: string) returns (at: seq<nat>)
    ensures RoutedBy(bindings, key, at, Destinations(bindings, key))
  {
    hide Bound;
    at := [];
    if bindings != [] {
      var n := |bindings| - 1;
      var before := DestinationsPlaces(bindings[..n], key);
      at := before + if Bound(bindings[n], key) then [n] else [];
      forall i | 0 <= i < |before| ensures before[i] < n { assert before[i] in before; }
    }
  }

  // After a Bind the answer is the old one, followed by the new destination exactly if its pattern means the key.
  lemma RouteAfterBind(bindings: seq<Binding>, b: Binding, key: string)
    ensures Destinations(bindings + [b], key) == Destinations(bindings, key) + if Bound(b, key) then [b.destination] else []
  {
    assert (bindings + [b])[..|bindings|] == bindings;
  }

  lemma {:induction false} DestinationsSplit(a: seq<Binding>, b: seq<Binding>, key: string)
    ensures Destinations(a + b, key) == Destinations(a, key) + Destinations(b, key)
  {
    hide Bound;
    if b == [] {
      assert a + b == a;
    } else {
      var n := |b| - 1;
      DestinationsSplit(a, b[..n], key);
      assert a + b == (a + b[..n]) + [b[n]];
      RouteAfterBind(a + b[..n], b[n], key);
    }
  }

  // Without binding i the answer lacks its destination once, at its place, exactly if its pattern means the key.
  lemma RouteAfterUnbind(bindings: seq<Binding>, i: nat, key: string)
    requires i < |bindings|
    ensures var front, back, b := Destinations(bindings[..i], key), Destinations(bindings[i + 1..], key), bindings[i];
            && Destinations(bindings, key) == front + (if Bound(b, key) then [b.destination] else []) + back
            && Destinations(bindings[..i] + bindings[i + 1..], key) == front + back
  {
    hide Bound;
    DestinationsSplit(bindings[..i], bindings[i + 1..], key);
    DestinationsSplit(bindings[..i] + [bindings[i]], bindings[i + 1..], key);
    RouteAfterBind(bindings[..i], bindings[i], key);
    assert bindings == bindings[..i] + [bindings[i]] + bindings[i + 1..];
  }

  predicate Is(b: Binding, key: string, destination: string) { b.key == key && b.destination == destination }

  class Exchange {
    var bindings: seq<Binding>

    constructor ()
      ensures bindings == []
    {
      bindings := [];
    }

    method Bind(key: string, destination: string)
      modifies this
      ensures bindings == old(bindings) + [Binding(key, destination)]
    {
      bindings := bindings + [Binding(key, destination)];
    }

    // The first such binding goes; the others stay in order.
    method Unbind(key: string, destination: string)
      modifies this
      ensures (forall i :: 0 <= i < |old(bindings)| ==> !Is(old(bindings)[i], key, destination)) ==> bindings == old(bindings)
      ensures forall i :: 0 <= i < |old(bindings)| && Is(old(bindings)[i], key, destination)
                          && (forall j :: 0 <= j < i ==> !Is(old(bindings)[j], key, destination))
                          ==> bindings == old(bindings)[..i] + old(bindings)[i + 1..]
    {
      for i := 0 to |bindings|
        invariant bindings == old(bindings)
        invariant forall j :: 0 <= j < i ==> !Is(bindings[j], key, destination)
      {
        if Is(bindings[i], key, destination) {
          bindings := bindings[..i] + bindings[i + 1..];
          return;
        }
      }
    }

    method RouteTopic(key: string) returns (dests: seq<string>)
      ensures dests == Destinations(bindings, key)
      ensures exists at: seq<nat> :: RoutedBy(bindings, key, at, dests)
    {
      hide Means, Split, RoutedBy;
      dests := [];
      for i := 0 to |bindings|
        invariant dests == Destinations(bindings[..i], key)
      {
        assert bindings[..i + 1][..i] == bindings[..i];
        var b := TopicMatches(bindings[i].key, key);
        if b { dests := dests + [bindings[i].destination]; }
      }
      assert bindings[..|bindings|] == bindings;
      ghost var at := DestinationsPlaces(bindings, key);
    }
  }
}
