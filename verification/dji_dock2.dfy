/**
 * The DJI Dock 2 adapter of plugin/plugins/dji_dock2.go: its fields, the OSD
 * (on-screen telemetry) cache fed by the subscription callback, and the MQTT
 * topics and command envelopes of take-off and landing.
 *
 * The MQTT client is not modelled: the outcomes of connect, subscribe and
 * publish are inputs, and so is the outcome of decoding a message. The float
 * fields of an OSD snapshot are kept opaque as their IEEE-754 bit patterns.
 */
module Dock2 {
  import opened Common
  import Validator

  /** A `float64`, kept as its bit pattern; nothing here computes with it. */
  datatype Float64 = Float64(bits: bv64)

  /** `service.DroneOSD`. */
  datatype DroneOSD = DroneOSD(
    latitude: Float64,
    longitude: Float64,
    altitude: Float64,
    battery: int,
    speed: Float64,
    flightState: int)

  /** The zero value of `DroneOSD`. */
  const ZeroOSD := DroneOSD(Float64(0), Float64(0), Float64(0), 0, Float64(0), 0)

  datatype InitParams = InitParams(
    accessToken: string,
    gateWaySn: string,
    dockSn: string,
    clientId: string,
    mqttHost: string,
    userName: string,
    password: string)

  /**
   * What `json.Unmarshal` leaves in the callback's local `osd`: a decoded
   * snapshot, or an error together with whatever fields were filled before it.
   */
  datatype OsdPayload = Decoded(osd: DroneOSD) | Malformed(partial: DroneOSD)

  /** The request map of `TakeOff` and `Land`, with the topic it is published to. */
  datatype Command = Command(topic: string, methodName: string, paramsSn: string, timestamp: int, clientToken: string)

  datatype Dock2Error = ConnectFailed(reason: string) | SubscribeFailed(reason: string) | PublishFailed(reason: string)

  // ---------------------------------------------------------------------------
  // Topics

  const TopicPrefix := "thing/product/"
  const ServicesInfix := "/services/"
  const OsdService := "osd"
  const TakeOffService := "takeoff"
  const LandService := "land"
  const TakeOffMethod := "takeoff_to_point"
  const LandMethod := "land_to_point"

  /** `fmt.Sprintf("thing/product/%s/services/%s", device, service)`. */
  function Topic(device: string, service: string): (t: string)
    ensures |t| == |TopicPrefix| + |device| + |ServicesInfix| + |service|
    ensures TopicPrefix <= t && t[|TopicPrefix|..|TopicPrefix| + |device|] == device
    ensures t[|t| - |service|..] == service
  {
    TopicPrefix + device + ServicesInfix + service
  }

  datatype TopicParts = TopicParts(device: string, service: string)

  /** The first position of `c` in `s`. */
  function IndexOf(s: string, c: char): (r: Option<nat>)
    ensures r.None? <==> c !in s
    ensures r.Some? ==> r.value < |s| && s[r.value] == c && c !in s[..r.value]
  {
    if s == "" then None
    else if s[0] == c then Some(0)
    else match IndexOf(s[1..], c)
      case None => None
      case Some(i) =>
        assert s[..i + 1] == [s[0]] + s[1..][..i];
        Some(i + 1)
  }

  /** Split a topic into the device and service it names, if it has the shape `Topic` builds. */
  function ParseTopic(t: string): Option<TopicParts> {
    if !(TopicPrefix <= t) then None
    else
      var rest := t[|TopicPrefix|..];
      match IndexOf(rest, '/')
      case None => None
      case Some(i) =>
        if ServicesInfix <= rest[i..] then Some(TopicParts(rest[..i], rest[i + |ServicesInfix|..])) else None
  }

  /** The first '/' of a device without '/' followed by a '/'-led tail is the one after the device. */
  lemma FirstSlashAfterDevice(device: string, tail: string)
    requires '/' !in device && tail != [] && tail[0] == '/'
    ensures IndexOf(device + tail, '/') == Some(|device|)
  {
    var s := device + tail;
    assert forall j | 0 <= j < |device| :: s[j] == device[j];
    assert s[|device|] == '/';
  }

  /** A topic built from a device without '/' is parsed back into its device and service. */
  lemma TopicRoundTrip(device: string, service: string)
    requires '/' !in device
    ensures ParseTopic(Topic(device, service)) == Some(TopicParts(device, service))
  {
    var t := Topic(device, service);
    var tail := ServicesInfix + service;
    var rest := device + tail;
    assert t == TopicPrefix + rest;
    assert TopicPrefix <= t && t[|TopicPrefix|..] == rest;
    FirstSlashAfterDevice(device, tail);
    assert rest[..|device|] == device && rest[|device|..] == tail;
    assert tail[|ServicesInfix|..] == service;
  }

  /** A string with `prefix` in front and `infix` at offset `i` after it is the join of its parts. */
  lemma JoinAround(t: string, prefix: string, infix: string, i: nat)
    requires prefix <= t && i <= |t| - |prefix|
    requires infix <= t[|prefix|..][i..]
    ensures t == prefix + t[|prefix|..][..i] + infix + t[|prefix|..][i + |infix|..]
  {
    var rest := t[|prefix|..];
    assert rest[i..] == infix + rest[i + |infix|..];
    assert rest == rest[..i] + rest[i..];
    assert t == prefix + rest;
  }

  /** Every topic that parses is exactly the topic built from its parts. */
  lemma ParsedTopicIsBuilt(t: string)
    requires ParseTopic(t).Some?
    ensures var p := ParseTopic(t).value; '/' !in p.device && Topic(p.device, p.service) == t
  {
    var rest := t[|TopicPrefix|..];
    var i := IndexOf(rest, '/').value;
    JoinAround(t, TopicPrefix, ServicesInfix, i);
  }

  /** A device serial number that passes validation always yields a topic that parses back. */
  lemma ValidSerialTopicRoundTrip(sn: string, service: string)
    requires Validator.ValidateDeviceSN(sn).Pass?
    ensures ParseTopic(Topic(sn, service)) == Some(TopicParts(sn, service))
  {
    Validator.SerialHasNoSlash(sn);
    TopicRoundTrip(sn, service);
  }

  // ---------------------------------------------------------------------------
  // The OSD cache

  /** One run of the subscription callback as written: only a failed decode is stored. */
  function CacheAfter(cache: DroneOSD, p: OsdPayload): (r: DroneOSD)
    ensures p.Decoded? ==> r == cache
    ensures p.Malformed? ==> r == p.partial
  {
    match p
    case Decoded(_) => cache
    case Malformed(partial) => partial
  }

  /** The callback as its comment describes it: a decoded snapshot replaces the cache. */
  function IntendedCacheAfter(cache: DroneOSD, p: OsdPayload): (r: DroneOSD)
    ensures p.Decoded? ==> r == p.osd
    ensures p.Malformed? ==> r == cache
  {
    match p
    case Decoded(osd) => osd
    case Malformed(_) => cache
  }

  /** The cache after a sequence of messages, as written. */
  function Replay(cache: DroneOSD, ps: seq<OsdPayload>): DroneOSD
    decreases |ps|
  {
    if ps == [] then cache else CacheAfter(Replay(cache, ps[..|ps| - 1]), ps[|ps| - 1])
  }

  /** The cache after a sequence of messages, as intended. */
  function IntendedReplay(cache: DroneOSD, ps: seq<OsdPayload>): DroneOSD
    decreases |ps|
  {
    if ps == [] then cache else IntendedCacheAfter(IntendedReplay(cache, ps[..|ps| - 1]), ps[|ps| - 1])
  }

  /** The snapshot carried by a message, whatever the decoding outcome. */
  function Carried(p: OsdPayload): DroneOSD {
    match p
    case Decoded(osd) => osd
    case Malformed(partial) => partial
  }

  /** The callback never merges fields: the cache is kept or replaced whole by the message's snapshot. */
  lemma CallbackReplacesWholesale(cache: DroneOSD, p: OsdPayload)
    ensures CacheAfter(cache, p) == cache || CacheAfter(cache, p) == Carried(p)
    ensures IntendedCacheAfter(cache, p) == cache || IntendedCacheAfter(cache, p) == Carried(p)
  {
  }

  /** As written, a stream of well-formed messages never changes the cache. */
  lemma {:induction false} AsWrittenIgnoresDecoded(cache: DroneOSD, ps: seq<OsdPayload>)
    requires forall i | 0 <= i < |ps| :: ps[i].Decoded?
    ensures Replay(cache, ps) == cache
    decreases |ps|
  {
    if ps != [] {
      AsWrittenIgnoresDecoded(cache, ps[..|ps| - 1]);
    }
  }

  /** So an adapter that only ever receives valid telemetry reports a battery level of 0. */
  lemma AsWrittenBatteryStaysZero(ps: seq<OsdPayload>)
    requires forall i | 0 <= i < |ps| :: ps[i].Decoded?
    ensures Replay(ZeroOSD, ps).battery == 0
  {
    AsWrittenIgnoresDecoded(ZeroOSD, ps);
  }

  /** Intended: malformed messages alone leave the cache as it was. */
  lemma {:induction false} IntendedKeepsOnMalformed(cache: DroneOSD, ps: seq<OsdPayload>)
    requires forall i | 0 <= i < |ps| :: ps[i].Malformed?
    ensures IntendedReplay(cache, ps) == cache
    decreases |ps|
  {
    if ps != [] {
      IntendedKeepsOnMalformed(cache, ps[..|ps| - 1]);
    }
  }

  /** Intended: the cache holds the last well-formed snapshot, whatever malformed messages follow it. */
  lemma {:induction false} IntendedLastValidWins(cache: DroneOSD, ps: seq<OsdPayload>, i: nat)
    requires i < |ps| && ps[i].Decoded?
    requires forall j | i < j < |ps| :: ps[j].Malformed?
    ensures IntendedReplay(cache, ps) == ps[i].osd
    decreases |ps|
  {
    if i < |ps| - 1 {
      var init := ps[..|ps| - 1];
      assert init[i] == ps[i];
      assert forall j | i < j < |init| :: init[j] == ps[j];
      IntendedLastValidWins(cache, init, i);
    }
  }

  // ---------------------------------------------------------------------------
  // The adapter

  class Dock2Adapter {
    var accessToken: string
    var gateWaySn: string
    var droneSn: string
    var dockSn: string
    var latestOSD: DroneOSD
    var osdSubscribed: bool

    /** The struct literal of `InitializationDJIDock2Adapter`: three fields copied, the rest zero. */
    constructor (params: InitParams)
      ensures accessToken == params.accessToken && gateWaySn == params.gateWaySn && dockSn == params.dockSn
      ensures droneSn == "" && latestOSD == ZeroOSD && !osdSubscribed
    {
      accessToken := params.accessToken;
      gateWaySn := params.gateWaySn;
      droneSn := "";
      dockSn := params.dockSn;
      latestOSD := ZeroOSD;
      osdSubscribed := false;
    }

    function OsdTopic(): string
      reads this
    {
      Topic(dockSn, OsdService)
    }

    /** `subscribeOSD`, given the outcome of the MQTT subscription. */
    method SubscribeOSD(subscribeErr: Option<string>) returns (topic: string, err: Option<string>)
      modifies this
      ensures topic == OsdTopic() && err == subscribeErr
      ensures osdSubscribed == (old(osdSubscribed) || subscribeErr.None?)
      ensures accessToken == old(accessToken) && gateWaySn == old(gateWaySn) && droneSn == old(droneSn)
      ensures dockSn == old(dockSn) && latestOSD == old(latestOSD)
    {
      topic := Topic(dockSn, OsdService);
      if subscribeErr.Some? {
        return topic, subscribeErr;
      }
      osdSubscribed := true;
      err := None;
    }

    /** The subscription callback, as written, for one message. */
    method OnOsdMessage(p: OsdPayload)
      modifies this
      ensures latestOSD == CacheAfter(old(latestOSD), p)
      ensures accessToken == old(accessToken) && gateWaySn == old(gateWaySn) && droneSn == old(droneSn)
      ensures dockSn == old(dockSn) && osdSubscribed == old(osdSubscribed)
    {
      var osd: DroneOSD;
      match p {
        case Decoded(decoded) =>
        case Malformed(partial) =>
          osd := partial;
          latestOSD := osd;
      }
    }

    /** The request `TakeOff` publishes at `nowMillis` (`time.Now().UnixMilli()`). */
    function TakeOffCommand(nowMillis: int): (c: Command)
      reads this
      ensures c.topic == Topic(gateWaySn, TakeOffService) && c.methodName == TakeOffMethod
      ensures c.paramsSn == gateWaySn && c.clientToken == accessToken && c.timestamp == nowMillis
    {
      Command(Topic(gateWaySn, TakeOffService), TakeOffMethod, gateWaySn, nowMillis, accessToken)
    }

    /** The request `Land` publishes: the gateway serial in its parameters, but the dock's topic. */
    function LandCommand(nowMillis: int): (c: Command)
      reads this
      ensures c.topic == Topic(dockSn, LandService) && c.methodName == LandMethod
      ensures c.paramsSn == gateWaySn && c.clientToken == accessToken && c.timestamp == nowMillis
    {
      Command(Topic(dockSn, LandService), LandMethod, gateWaySn, nowMillis, accessToken)
    }

    /** `TakeOff`, given the outcome of the publish; the command is returned either way. */
    method TakeOff(nowMillis: int, publishErr: Option<string>) returns (c: Command, err: Option<Dock2Error>)
      ensures c == TakeOffCommand(nowMillis)
      ensures err.Some? <==> publishErr.Some?
      ensures publishErr.Some? ==> err == Some(PublishFailed(publishErr.value))
    {
      c := Command(Topic(gateWaySn, TakeOffService), TakeOffMethod, gateWaySn, nowMillis, accessToken);
      err := if publishErr.Some? then Some(PublishFailed(publishErr.value)) else None;
    }

    /** `Land`, given the outcome of the publish; the command is returned either way. */
    method Land(nowMillis: int, publishErr: Option<string>) returns (c: Command, err: Option<Dock2Error>)
      ensures c == LandCommand(nowMillis)
      ensures err.Some? <==> publishErr.Some?
      ensures publishErr.Some? ==> err == Some(PublishFailed(publishErr.value))
    {
      c := Command(Topic(dockSn, LandService), LandMethod, gateWaySn, nowMillis, accessToken);
      err := if publishErr.Some? then Some(PublishFailed(publishErr.value)) else None;
    }

    /** `GetDroneBatteryLevel`: the cached battery level, never an error. */
    method GetDroneBatteryLevel() returns (level: int, err: Option<Dock2Error>)
      ensures level == latestOSD.battery && err == None
    {
      return latestOSD.battery, None;
    }
  }

  /** Take-off and landing address different devices unless the gateway and the dock share a serial. */
  lemma LandTopicUsesDock(a: Dock2Adapter, nowMillis: int)
    requires '/' !in a.gateWaySn && '/' !in a.dockSn
    ensures a.TakeOffCommand(nowMillis).paramsSn == a.LandCommand(nowMillis).paramsSn
    ensures ParseTopic(a.LandCommand(nowMillis).topic) == Some(TopicParts(a.dockSn, LandService))
    ensures ParseTopic(a.TakeOffCommand(nowMillis).topic) == Some(TopicParts(a.gateWaySn, TakeOffService))
  {
    TopicRoundTrip(a.dockSn, LandService);
    TopicRoundTrip(a.gateWaySn, TakeOffService);
  }

  /**
   * `InitializationDJIDock2Adapter`, given the outcomes of the MQTT connect
   * and subscribe: an adapter is returned only when both succeed, and it is
   * then subscribed with an empty cache.
   */
  method Initialize(params: InitParams, connectErr: Option<string>, subscribeErr: Option<string>)
    returns (r: Result<Dock2Adapter, Dock2Error>)
    ensures connectErr.Some? ==> r == Err(ConnectFailed(connectErr.value))
    ensures connectErr.None? && subscribeErr.Some? ==> r == Err(SubscribeFailed(subscribeErr.value))
    ensures r.Ok? <==> connectErr.None? && subscribeErr.None?
    ensures r.Ok? ==> fresh(r.value) && r.value.osdSubscribed && r.value.latestOSD == ZeroOSD &&
                      r.value.accessToken == params.accessToken && r.value.gateWaySn == params.gateWaySn &&
                      r.value.dockSn == params.dockSn && r.value.droneSn == ""
  {
    if connectErr.Some? {
      return Err(ConnectFailed(connectErr.value));
    }
    var adapter := new Dock2Adapter(params);
    var _, err := adapter.SubscribeOSD(subscribeErr);
    if err.Some? {
      return Err(SubscribeFailed(err.value));
    }
    r := Ok(adapter);
  }
}
