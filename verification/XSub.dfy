/** The subscriber socket's side of subscription forwarding: a cache with a count per
    subscription, of which every upstream pipe is told the keys. */
module XSub {
  import opened Options
  import opened Bytes
  import opened Wire

  const SUBSCRIBE := 1
  const UNSUBSCRIBE := 2

  /** Filter and its argument. */
  datatype Key = Key(filter: nat, data: bytes)

  datatype Command = Subscribe(key: Key) | Unsubscribe(key: Key)

  /** A subscription message; None if it is malformed. */
  function Decode(msg: bytes): Option<Command> {
    if |msg| < 4 then None
    else
      var cmd, key := GetUint16(msg[..2]), Key(GetUint16(msg[2..4]), msg[4..]);
      if cmd == SUBSCRIBE then Some(Subscribe(key))
      else if cmd == UNSUBSCRIBE then Some(Unsubscribe(key))
      else None
  }

  /** The bytes of a command: two for what to do, two for the filter, each the higher first,
      and the filter's argument as it is. */
  lemma DecodeBytes(f: nat, d: bytes)
    requires f < 0x1_0000
    ensures Decode([0, 1, (f / 256) as byte, (f % 256) as byte] + d) == Some(Subscribe(Key(f, d)))
    ensures Decode([0, 2, (f / 256) as byte, (f % 256) as byte] + d) == Some(Unsubscribe(Key(f, d)))
  {
    var hi, lo := (f / 256) as byte, (f % 256) as byte;
    forall c: byte | c == 1 || c == 2 ensures Decode([0, c, hi, lo] + d) == Some(if c == 1 then Subscribe(Key(f, d)) else Unsubscribe(Key(f, d))) {
      var msg := [0, c, hi, lo] + d;
      assert msg[..2] == [0, c] && msg[2..4] == [hi, lo] && msg[4..] == d;
    }
  }

  /** Malformed is less than four bytes, or another command. */
  lemma DecodeFailsIff(msg: bytes)
    ensures Decode(msg).None? <==> |msg| < 4 || msg[0] != 0 || (msg[1] != 1 && msg[1] != 2)
    ensures Decode(msg).Some? ==> var c := Decode(msg).value;
      && (c.Subscribe? <==> msg[1] == 1) && c.key.filter < 0x1_0000
      && msg == [0, msg[1], (c.key.filter / 256) as byte, (c.key.filter % 256) as byte] + c.key.data
  {
  }

  method Encode(c: Command) returns (msg: bytes)
    requires c.key.filter < 0x1_0000
    ensures Decode(msg) == Some(c)
    ensures msg == [0, if c.Subscribe? then 1 else 2, (c.key.filter / 256) as byte, (c.key.filter % 256) as byte] + c.key.data
  {
    var data := new byte[4];
    PutUint16(data, 0, if c.Subscribe? then SUBSCRIBE else UNSUBSCRIBE);
    PutUint16(data, 2, c.key.filter);
    msg := data[..] + c.key.data;
    Powers();
    assert msg[..2] == data[0..2] && msg[2..4] == data[2..4] && msg[4..] == c.key.data;
    DigitsValue(msg[..2], if c.Subscribe? then SUBSCRIBE else UNSUBSCRIBE);
    DigitsValue(msg[2..4], c.key.filter);
    DecodeFailsIff(msg);
  }

  /** The messages written to a pipe announce each of `keys` once more than they take it
      back, and never announce what is announced or take back what is not. */
  ghost predicate Announces(log: seq<bytes>, keys: set<Key>)
    decreases |log|
  {
    if log == [] then keys == {}
    else
      var n := |log| - 1;
      match Decode(log[n])
      case None => false
      case Some(Subscribe(k)) => k in keys && Announces(log[..n], keys - {k})
      case Some(Unsubscribe(k)) => k !in keys && Announces(log[..n], keys + {k})
  }

  lemma AnnounceMore(log: seq<bytes>, keys: set<Key>, msg: bytes)
    requires Announces(log, keys) && Decode(msg).Some?
    ensures Decode(msg).value.Subscribe? && Decode(msg).value.key !in keys ==>
      Announces(log + [msg], keys + {Decode(msg).value.key})
    ensures Decode(msg).value.Unsubscribe? && Decode(msg).value.key in keys ==>
      Announces(log + [msg], keys - {Decode(msg).value.key})
  {
    var k := Decode(msg).value.key;
    assert (log + [msg])[..|log|] == log;
    assert k !in keys ==> keys + {k} - {k} == keys;
    assert k in keys ==> keys - {k} + {k} == keys;
  }

  /** `n` messages, each of them a subscription. */
  predicate AllSubscribe(log: seq<bytes>, n: int) {
    |log| == n && forall i :: 0 <= i < |log| ==> Decode(log[i]).Some? && Decode(log[i]).value.Subscribe?
  }

  type Pipe = nat

  /** A pipe is in `logs` if it takes subscriptions; its log holds what was written to it
      since it was attached or hiccuped. Writes to it succeed. */
  class XSub {
    var subscriptions: map<Key, nat>
    var logs: map<Pipe, seq<bytes>>

    ghost predicate Valid()
      reads this
    {
      && (forall k :: k in subscriptions ==> subscriptions[k] > 0 && k.filter < 0x1_0000)
      && (forall p :: p in logs ==> Announces(logs[p], subscriptions.Keys))
    }

    constructor ()
      ensures Valid() && subscriptions == map[] && logs == map[]
    {
      subscriptions, logs := map[], map[];
    }

    function Count(k: Key): nat
      reads this
    {
      if k in subscriptions then subscriptions[k] else 0
    }

    method SendToAll(msg: bytes)
      modifies `logs
      ensures logs.Keys == old(logs.Keys) && forall p :: p in logs ==> logs[p] == old(logs)[p] + [msg]
    {
      logs := map p | p in logs :: logs[p] + [msg];
    }

    /** The user subscribes or unsubscribes. Only the first of equal subscriptions and the
        last of equal unsubscriptions are passed on, as they came. */
    method Send(msg: bytes) returns (ok: bool)
      requires Valid()
      modifies this
      ensures Valid() && ok == Decode(msg).Some?
      ensures !ok ==> subscriptions == old(subscriptions)
      ensures ok ==> var c, n := Decode(msg).value, old(Count(Decode(msg).value.key));
        && Count(c.key) == (if c.Subscribe? then n + 1 else if n > 0 then n - 1 else 0)
        && forall k :: k != c.key ==> Count(k) == old(Count(k))
      ensures logs.Keys == old(logs.Keys)
      ensures forall p :: p in logs ==> logs[p] == old(logs)[p] + if subscriptions.Keys == old(subscriptions.Keys) then [] else [msg]
    {
      hide Announces;
      var c := Decode(msg);
      if c.None? { return false; }
      var k := c.value.key;
      KeyBound(msg);
      ghost var keys := subscriptions.Keys;
      forall p | p in logs { AnnounceMore(logs[p], keys, msg); }
      if c.value.Subscribe? {
        subscriptions := subscriptions[k := Count(k) + 1];
        if subscriptions[k] == 1 {
          SendToAll(msg);
          assert subscriptions.Keys == keys + {k};
          return true;
        }
        assert subscriptions.Keys == keys;
      } else if k in subscriptions {
        subscriptions := subscriptions[k := subscriptions[k] - 1];
        assert subscriptions.Keys == keys;
        if subscriptions[k] == 0 {
          subscriptions := subscriptions - {k};
          assert subscriptions.Keys == keys - {k};
          SendToAll(msg);
          return true;
        }
      }
      return true;
    }

    /** All cached subscriptions, for a new upstream peer: one message for each. */
    method Announce() returns (log: seq<bytes>)
      requires Valid()
      ensures Announces(log, subscriptions.Keys) && AllSubscribe(log, |subscriptions|)
    {
      log := [];
      var left := subscriptions.Keys;
      while left != {}
        invariant AllSubscribe(log, |subscriptions| - |left|)
        invariant left <= subscriptions.Keys && Announces(log, subscriptions.Keys - left)
        decreases left
      {
        var k :| k in left;
        var msg := Encode(Subscribe(k));
        AnnounceMore(log, subscriptions.Keys - left, msg);
        assert subscriptions.Keys - left + {k} == subscriptions.Keys - (left - {k});
        log, left := log + [msg], left - {k};
      }
      assert subscriptions.Keys - {} == subscriptions.Keys;
    }

    /** Pipes of the oldest protocol version take no subscriptions. */
    method AttachPipe(p: Pipe, version: int)
      requires Valid() && p !in logs
      modifies `logs
      ensures Valid() && logs.Keys == old(logs.Keys) + (if version == 1 then {} else {p})
      ensures forall q :: q in old(logs) ==> logs[q] == old(logs)[q]
      ensures version != 1 ==> AllSubscribe(logs[p], |subscriptions|)
    {
      if version == 1 { return; }
      var log := Announce();
      logs := logs[p := log];
    }

    /** What was written to a hiccuped pipe is lost, so all is announced anew. */
    method Hiccuped(p: Pipe, version: int)
      requires Valid() && (p in logs <==> version != 1)
      modifies `logs
      ensures Valid() && logs.Keys == old(logs.Keys)
      ensures forall q :: q in old(logs) && q != p ==> logs[q] == old(logs)[q]
      ensures version != 1 ==> AllSubscribe(logs[p], |subscriptions|)
    {
      if version == 1 { return; }
      var log := Announce();
      logs := logs[p := log];
    }

    method Terminated(p: Pipe, version: int)
      requires Valid() && (p in logs <==> version != 1)
      modifies `logs
      ensures Valid() && logs == old(logs) - {p}
    {
      if version != 1 { logs := logs - {p}; }
    }
  }

  lemma KeyBound(msg: bytes)
    requires Decode(msg).Some?
    ensures Decode(msg).value.key.filter < 0x1_0000
  {
    ValueBound(msg[2..4]);
    Powers();
  }
}
