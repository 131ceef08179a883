/** The core's vocabulary (models.py): what a delivery is, and the keys it is known by. */
module Models {
  import opened Common
  import opened Text

  datatype EventKind = Handoff | PlatformEvent | SyntheticProbe

  datatype Recipient = Recipient(tag: string, value: string)

  datatype Event = Event(
    source: string,
    kind: EventKind,
    recipient: Recipient,
    wakeArg: string,
    deliveryId: string,
    originUrl: Option<string>,
    occurredAt: Option<real>)
  {
    predicate Synthetic() { kind.SyntheticProbe? }

    function DedupKey(): string { Joined(source, recipient.value) + deliveryId }

    function StreamKey(): string { if originUrl.Some? then originUrl.value else wakeArg }
  }

  /** The part of a dedup key before the delivery id. */
  function Joined(source: string, recipient: string): string {
    source + ":" + recipient + ":"
  }

  /** Two (source, recipient) pairs can produce equal dedup keys, for some two delivery ids, exactly when
      the joined part of one is a prefix of the other's. No event has a blank delivery id. */
  lemma KeysCollideIff(s1: string, r1: string, s2: string, r2: string)
    ensures (exists d1, d2 :: !Blank(d1) && !Blank(d2) && Joined(s1, r1) + d1 == Joined(s2, r2) + d2)
            <==> Joined(s1, r1) <= Joined(s2, r2) || Joined(s2, r2) <= Joined(s1, r1)
  {
    var p, q := Joined(s1, r1), Joined(s2, r2);
    if p <= q {
      PrefixCollides(p, q);
    } else if q <= p {
      PrefixCollides(q, p);
    }
    forall d1, d2 | p + d1 == q + d2 ensures p <= q || q <= p {
      if |p| <= |q| {
        assert p == (p + d1)[..|p|] == (q + d2)[..|p|] == q[..|p|];
      } else {
        assert q == (q + d2)[..|q|] == (p + d1)[..|q|] == p[..|q|];
      }
    }
  }

  lemma PrefixCollides(p: string, q: string)
    requires p <= q
    ensures exists d1, d2 :: !Blank(d1) && !Blank(d2) && p + d1 == q + d2
  {
    var d1, d2 := q[|p|..] + "d", "d";
    assert !IsSpace(d1[|d1| - 1]) && !IsSpace(d2[0]);
    assert p + d1 == q + d2;
  }

  /** A name without a colon is read back from whatever it is joined in front of. */
  lemma ColonEnds(a: string, b: string, x: string, y: string)
    requires ':' !in a && ':' !in b && a + ":" + x == b + ":" + y
    ensures a == b && x == y
  {
    var l := a + ":" + x;
    assert l[|a|] == ':' && l[|b|] == ':';
    assert forall i :: 0 <= i < |a| ==> l[i] == a[i] && a[i] in a;
    assert forall i :: 0 <= i < |b| ==> l[i] == b[i] && b[i] in b;
    assert |a| == |b|;
    assert a == l[..|a|] && b == l[..|b|];
    assert x == l[|a| + 1..] && y == l[|b| + 1..];
  }

  /** With no colon in the source or the recipient the key names exactly one delivery: its source, its
      recipient and its delivery id. */
  lemma DedupKeyNamesOneDelivery(e: Event, f: Event)
    requires ':' !in e.source && ':' !in f.source && ':' !in e.recipient.value && ':' !in f.recipient.value
    ensures e.DedupKey() == f.DedupKey()
            <==> e.source == f.source && e.recipient.value == f.recipient.value && e.deliveryId == f.deliveryId
  {
    if e.DedupKey() == f.DedupKey() {
      var x, y := e.recipient.value + ":" + e.deliveryId, f.recipient.value + ":" + f.deliveryId;
      assert e.DedupKey() == e.source + ":" + x && f.DedupKey() == f.source + ":" + y;
      ColonEnds(e.source, f.source, x, y);
      ColonEnds(e.recipient.value, f.recipient.value, e.deliveryId, f.deliveryId);
    }
  }

  /** A colon in a recipient can make two deliveries to different recipients one key. */
  lemma ColonCollides(e: Event)
    ensures var f := e.(recipient := Recipient(e.recipient.tag, "r:x"), deliveryId := "d");
            var g := e.(recipient := Recipient(e.recipient.tag, "r"), deliveryId := "x:d");
            f.DedupKey() == g.DedupKey() && f.recipient != g.recipient
  {
    var f := e.(recipient := Recipient(e.recipient.tag, "r:x"), deliveryId := "d");
    var g := e.(recipient := Recipient(e.recipient.tag, "r"), deliveryId := "x:d");
    assert f.DedupKey() == e.source + ":r:x:d";
    assert g.DedupKey() == e.source + ":r:x:d";
    assert |f.recipient.value| != |g.recipient.value|;
  }
}
