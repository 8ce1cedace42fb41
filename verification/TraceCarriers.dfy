/** The trace-context carriers: written by the API, read by the provisioner, over Kafka and over SQS. */
module TraceCarriers {
  import opened Wrappers

  datatype Header = Header(key: string, value: string)

  datatype Attribute = Attribute(dataType: string, stringValue: Option<string>)

  // ---- lookups, as the provisioner makes them ----

  function HeaderValue(headers: seq<Header>, key: string): string {
    if headers == [] then "" else if headers[0].key == key then headers[0].value else HeaderValue(headers[1..], key)
  }

  function AttributeValue(attrs: map<string, Attribute>, key: string): string {
    if key in attrs && attrs[key].stringValue.Some? then attrs[key].stringValue.value else ""
  }

  function KeysOf(headers: seq<Header>): seq<string> {
    seq(|headers|, i requires 0 <= i < |headers| => headers[i].key)
  }

  ghost predicate Distinct(keys: seq<string>) {
    forall i, j | 0 <= i < j < |keys| :: keys[i] != keys[j]
  }

  // ---- writes, as the API makes them ----

  /** Overwrite the first header with the key, or append one. */
  function PutHeader(headers: seq<Header>, key: string, value: string): seq<Header> {
    if headers == [] then [Header(key, value)]
    else if headers[0].key == key then [Header(key, value)] + headers[1..]
    else [headers[0]] + PutHeader(headers[1..], key, value)
  }

  function PutAttribute(attrs: map<string, Attribute>, key: string, value: string): map<string, Attribute> {
    attrs[key := Attribute("String", Some(value))]
  }

  lemma {:induction false} PutHeaderAt(headers: seq<Header>, key: string, value: string, i: nat)
    requires i <= |headers| && forall j | 0 <= j < i :: headers[j].key != key
    requires i < |headers| ==> headers[i].key == key
    ensures PutHeader(headers, key, value) ==
      if i < |headers| then headers[i := Header(key, value)] else headers + [Header(key, value)]
  {
    if i > 0 {
      PutHeaderAt(headers[1..], key, value, i - 1);
    }
  }

  class KafkaCarrier {
    var headers: seq<Header>

    constructor ()
      ensures headers == []
    {
      headers := [];
    }

    method Set(key: string, value: string)
      modifies this
      ensures headers == PutHeader(old(headers), key, value)
      ensures forall i | 0 <= i < |old(headers)| ::
        i < |headers| && headers[i].key == old(headers)[i].key && (old(headers)[i].key != key ==> headers[i] == old(headers)[i])
      ensures |headers| == |old(headers)| + if exists i :: 0 <= i < |old(headers)| && old(headers)[i].key == key then 0 else 1
    {
      for i := 0 to |headers|
        invariant headers == old(headers) && forall j | 0 <= j < i :: headers[j].key != key
      {
        if headers[i].key == key {
          PutHeaderAt(headers, key, value, i);
          headers := headers[i := Header(key, value)];
          return;
        }
      }
      PutHeaderAt(headers, key, value, |headers|);
      headers := headers + [Header(key, value)];
    }

    method Get(key: string) returns (value: string)
      ensures value == HeaderValue(headers, key)
    {
      value := FindHeader(headers, key);
    }

    method Keys() returns (keys: seq<string>)
      ensures keys == KeysOf(headers)
      ensures |keys| == |headers| && forall i | 0 <= i < |headers| :: keys[i] == headers[i].key
    {
      keys := [];
      for i := 0 to |headers|
        invariant keys == KeysOf(headers[..i])
      {
        keys := keys + [headers[i].key];
      }
      assert headers[..|headers|] == headers;
    }
  }

  class SqsCarrier {
    var attrs: map<string, Attribute>

    constructor ()
      ensures attrs == map[]
    {
      attrs := map[];
    }

    method Set(key: string, value: string)
      modifies this
      ensures attrs == PutAttribute(old(attrs), key, value)
      ensures key in attrs && attrs[key].dataType == "String" && attrs[key].stringValue == Some(value)
      ensures forall k | k != key :: (k in attrs <==> k in old(attrs)) && (k in attrs ==> attrs[k] == old(attrs)[k])
    {
      attrs := attrs[key := Attribute("String", Some(value))];
    }

    method Get(key: string) returns (value: string)
      ensures value == AttributeValue(attrs, key)
      ensures value == if key in attrs && attrs[key].stringValue.Some? then attrs[key].stringValue.value else ""
    {
      if key in attrs && attrs[key].stringValue.Some? {
        return attrs[key].stringValue.value;
      }
      return "";
    }

    /** The keys in some order, each once. */
    method Keys() returns (keys: seq<string>)
      ensures Distinct(keys) && forall k :: k in keys <==> k in attrs
    {
      keys := [];
      var todo := attrs.Keys;
      while todo != {}
        invariant todo <= attrs.Keys && Distinct(keys)
        invariant forall k :: k in keys <==> k in attrs && k !in todo
        decreases |todo|
      {
        var k :| k in todo;
        todo := todo - {k};
        keys := keys + [k];
      }
    }
  }

  /** The read-side Get over Kafka headers. */
  method FindHeader(headers: seq<Header>, key: string) returns (value: string)
    ensures value == HeaderValue(headers, key)
    ensures (forall i | 0 <= i < |headers| :: headers[i].key != key) ==> value == ""
    ensures forall i | 0 <= i < |headers| && headers[i].key == key && (forall j | 0 <= j < i :: headers[j].key != key) ::
      value == headers[i].value
  {
    for i := 0 to |headers|
      invariant HeaderValue(headers, key) == HeaderValue(headers[i..], key)
      invariant forall j | 0 <= j < i :: headers[j].key != key
    {
      if headers[i].key == key {
        return headers[i].value;
      }
    }
    return "";
  }

  // ---- both transports carry the same context ----

  datatype SetCall = SetCall(key: string, value: string)

  function Headers(calls: seq<SetCall>): seq<Header> {
    if calls == [] then []
    else PutHeader(Headers(calls[..|calls| - 1]), calls[|calls| - 1].key, calls[|calls| - 1].value)
  }

  function Attributes(calls: seq<SetCall>): map<string, Attribute> {
    if calls == [] then map[]
    else PutAttribute(Attributes(calls[..|calls| - 1]), calls[|calls| - 1].key, calls[|calls| - 1].value)
  }

  /** The value of the last call with the key, or the empty string. */
  function LastSet(calls: seq<SetCall>, key: string): string {
    if calls == [] then ""
    else if calls[|calls| - 1].key == key then calls[|calls| - 1].value
    else LastSet(calls[..|calls| - 1], key)
  }

  predicate WasSet(calls: seq<SetCall>, key: string) {
    exists c | c in calls :: c.key == key
  }

  lemma {:induction false} PutHeaderReads(headers: seq<Header>, key: string, value: string, other: string)
    ensures HeaderValue(PutHeader(headers, key, value), other) == if other == key then value else HeaderValue(headers, other)
  {
    if headers != [] {
      var put := PutHeader(headers, key, value);
      if headers[0].key == key {
        assert put[1..] == headers[1..];
      } else {
        assert put[1..] == PutHeader(headers[1..], key, value);
        PutHeaderReads(headers[1..], key, value, other);
      }
    }
  }

  lemma KeysOfCons(h: Header, rest: seq<Header>)
    ensures KeysOf([h] + rest) == [h.key] + KeysOf(rest)
  {
  }

  lemma {:induction false} PutHeaderKeys(headers: seq<Header>, key: string, value: string)
    ensures KeysOf(PutHeader(headers, key, value)) == if key in KeysOf(headers) then KeysOf(headers) else KeysOf(headers) + [key]
  {
    if headers != [] {
      var h, rest := headers[0], headers[1..];
      assert headers == [h] + rest;
      KeysOfCons(h, rest);
      if h.key == key {
        KeysOfCons(Header(key, value), rest);
      } else {
        PutHeaderKeys(rest, key, value);
        KeysOfCons(h, PutHeader(rest, key, value));
        assert [h.key] + (KeysOf(rest) + [key]) == ([h.key] + KeysOf(rest)) + [key];
      }
    }
  }

  /** For every sequence of Set calls, both transports give the provisioner the last value set. */
  lemma {:induction false} TransportsAgree(calls: seq<SetCall>, key: string)
    ensures HeaderValue(Headers(calls), key) == LastSet(calls, key)
    ensures AttributeValue(Attributes(calls), key) == LastSet(calls, key)
  {
    if calls != [] {
      var front, last := calls[..|calls| - 1], calls[|calls| - 1];
      TransportsAgree(front, key);
      PutHeaderReads(Headers(front), last.key, last.value, key);
    }
  }

  /** Both transports hold exactly the keys that were set, and the header list holds each once. */
  lemma {:induction false} KeysAreTheKeysSet(calls: seq<SetCall>)
    ensures Distinct(KeysOf(Headers(calls)))
    ensures forall k :: k in KeysOf(Headers(calls)) <==> WasSet(calls, k)
    ensures forall k :: k in Attributes(calls) <==> WasSet(calls, k)
  {
    if calls != [] {
      var front, last := calls[..|calls| - 1], calls[|calls| - 1];
      KeysAreTheKeysSet(front);
      PutHeaderKeys(Headers(front), last.key, last.value);
      assert last in calls && forall c :: c in calls <==> c in front || c == last;
      forall k
        ensures WasSet(calls, k) <==> WasSet(front, k) || k == last.key
      {
        if WasSet(front, k) {
          var c :| c in front && c.key == k;
          assert c in calls;
        }
      }
    }
  }

  /** The API writes a context to each transport, and the provisioner reads every key alike. */
  method CarryBoth(calls: seq<SetCall>, key: string) returns (overKafka: string, overSqs: string)
    ensures overKafka == overSqs == LastSet(calls, key)
  {
    var kafka := new KafkaCarrier();
    var sqs := new SqsCarrier();
    for i := 0 to |calls|
      invariant kafka.headers == Headers(calls[..i]) && sqs.attrs == Attributes(calls[..i])
    {
      assert calls[..i + 1][..i] == calls[..i];
      kafka.Set(calls[i].key, calls[i].value);
      sqs.Set(calls[i].key, calls[i].value);
    }
    assert calls[..|calls|] == calls;
    overKafka := FindHeader(kafka.headers, key);
    overSqs := sqs.Get(key);
    TransportsAgree(calls, key);
  }
}
