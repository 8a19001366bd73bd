/** Event emission of the firehose script.

    For every status of the sample stream the script extracts the hashtags
    and pushes one event per tag, in order, to the metrics collector.  The
    collector client is modelled as an object whose outbox records every
    event pushed to it; the network send itself is not modelled.
 */
module Firehose {
  import opened Hashtags

  /** The single entry of every event's Riemann `tags` attribute. */
  const TwitterTag := "twitter"

  /** The event time-to-live, in seconds. */
  const Ttl := 3600

  /** The metric of every event, the float `1.0`, held as a constant. */
  const Metric: real := 1.0

  /** One event record `{service:, metric:, tags:, ttl:}`. */
  datatype Event = Event(service: string, metric: real, tags: seq<string>, ttl: nat)

  /** The record built for one tag. */
  function TagEvent(tag: string): Event {
    Event(tag, Metric, [TwitterTag], Ttl)
  }

  /** The records for a list of tags, one per tag, in order. */
  function Events(tags: seq<string>): (es: seq<Event>)
    ensures |es| == |tags|
  {
    if tags == [] then [] else [TagEvent(tags[0])] + Events(tags[1..])
  }

  /** Record `k` is the record of tag `k`: service tag `k`, metric 1.0,
      tags `["twitter"]` and ttl 3600. */
  lemma {:induction false} EventsAt(tags: seq<string>, k: nat)
    requires k < |tags|
    ensures Events(tags)[k] == TagEvent(tags[k])
    ensures Events(tags)[k].service == tags[k] && Events(tags)[k].metric == 1.0
    ensures Events(tags)[k].tags == ["twitter"] && Events(tags)[k].ttl == 3600
  {
    if k > 0 {
      EventsAt(tags[1..], k - 1);
    }
  }

  /** The records a single status gives rise to. */
  function StatusEvents(text: string): seq<Event> {
    Events(Extract(text))
  }

  /** The records a stream of statuses gives rise to: each status's records, in arrival order. */
  function StreamEvents(texts: seq<string>): seq<Event> {
    if texts == [] then [] else StreamEvents(texts[..|texts| - 1]) + StatusEvents(texts[|texts| - 1])
  }

  /** Emitting a list of tags in two parts emits the same records as emitting it at once. */
  lemma {:induction false} EventsAppend(a: seq<string>, b: seq<string>)
    ensures Events(a + b) == Events(a) + Events(b)
  {
    if a == [] {
      assert a + b == b;
    } else {
      EventsAppend(a[1..], b);
      assert (a + b)[1..] == a[1..] + b;
      assert Events(a + b) == [TagEvent(a[0])] + Events(a[1..] + b);
    }
  }

  /** No state is carried from one status to the next: the records of two
      consecutive stretches of the stream are the records of each stretch. */
  lemma {:induction false} StreamEventsAppend(a: seq<string>, b: seq<string>)
    ensures StreamEvents(a + b) == StreamEvents(a) + StreamEvents(b)
    decreases |b|
  {
    if b != [] {
      var b' := b[..|b| - 1];
      assert (a + b)[..|a + b| - 1] == a + b';
      assert (a + b)[|a + b| - 1] == b[|b| - 1];
      StreamEventsAppend(a, b');
    } else {
      assert a + b == a;
    }
  }

  /** The records of a one-status stream are that status's records. */
  lemma StreamEventsSingle(text: string)
    ensures StreamEvents([text]) == StatusEvents(text)
  {
    assert [text][..0] == [];
  }

  /** Each status contributes exactly its own records, wherever it stands in
      the stream: what comes before or after it does not change them. */
  lemma StreamEventsAt(before: seq<string>, text: string, after: seq<string>)
    ensures StreamEvents(before + [text] + after) ==
              StreamEvents(before) + StatusEvents(text) + StreamEvents(after)
  {
    StreamEventsSingle(text);
    StreamEventsAppend(before + [text], after);
    StreamEventsAppend(before, [text]);
  }

  /** The collector client: every event pushed with `riemann <<` lands in the outbox. */
  class Collector {
    var outbox: seq<Event>

    constructor ()
      ensures outbox == []
    {
      outbox := [];
    }

    /** `riemann << event` */
    method Send(e: Event)
      modifies this
      ensures outbox == old(outbox) + [e]
    {
      outbox := outbox + [e];
    }
  }

  /** `tags.each do |tag| riemann << {...} end`: one event per tag, in order, nothing else. */
  method EmitTags(riemann: Collector, tags: seq<string>)
    modifies riemann
    ensures riemann.outbox == old(riemann.outbox) + Events(tags)
  {
    var i := 0;
    while i < |tags|
      invariant 0 <= i <= |tags|
      invariant riemann.outbox == old(riemann.outbox) + Events(tags[..i])
    {
      EventsAppend(tags[..i], [tags[i]]);
      assert tags[..i + 1] == tags[..i] + [tags[i]];
      riemann.Send(TagEvent(tags[i]));
      i := i + 1;
    }
    assert tags[..i] == tags;
  }

  /** The block run for one status: extract its tags, then emit them. */
  method HandleStatus(riemann: Collector, text: string)
    modifies riemann
    ensures riemann.outbox == old(riemann.outbox) + StatusEvents(text)
  {
    var tags := Extract(text);
    EmitTags(riemann, tags);
  }

  /** `TweetStream::Client.new.sample do |status| ... end`, over the statuses
      the stream delivers, in arrival order. */
  method Sample(riemann: Collector, texts: seq<string>)
    modifies riemann
    ensures riemann.outbox == old(riemann.outbox) + StreamEvents(texts)
  {
    var i := 0;
    while i < |texts|
      invariant 0 <= i <= |texts|
      invariant riemann.outbox == old(riemann.outbox) + StreamEvents(texts[..i])
    {
      assert texts[..i + 1][..i] == texts[..i];
      HandleStatus(riemann, texts[i]);
      i := i + 1;
    }
    assert texts[..i] == texts;
  }
}
