/** The Sentinel pub/sub context: classification of the frames read from a
    subscription to a Redis Sentinel, and decoding of the plain-text
    payloads of its announcements into instance records. */
module SentinelContext {
  import opened PhpStrings

  datatype Option<T> = None | Some(value: T)

  /** One field of a pub/sub frame as the connection delivers it. */
  datatype Value = Str(s: string) | Int(i: int) | Null

  /** A frame already deframed by the connection; field 0 is the kind tag. */
  type Frame = seq<Value>

  /** $response[i]: a field past the end of the frame reads as null. */
  function Field(frame: Frame, i: nat): Value
  {
    if i < |frame| then frame[i] else Null
  }

  // The kind tags a pub/sub frame can carry.
  const SUBSCRIBE: string := "subscribe"
  const PSUBSCRIBE: string := "psubscribe"
  const UNSUBSCRIBE: string := "unsubscribe"
  const PUNSUBSCRIBE: string := "punsubscribe"
  const MESSAGE: string := "message"
  const PMESSAGE: string := "pmessage"

  // The channels and the role that the notification decoder singles out.
  const TILT_ON: string := "+tilt"
  const TILT_OFF: string := "-tilt"
  const SWITCH_MASTER: string := "switch-master"
  const MASTER_ROLE: string := "master"

  /** The closed set of frame kinds. */
  datatype Kind = Subscribe | PSubscribe | Unsubscribe | PUnsubscribe | Message | PMessage
  {
    /** The acknowledgements of the four (un)subscribe commands. */
    predicate IsAck() { !Message? && !PMessage? }
  }

  function KindName(k: Kind): string
  {
    match k
    case Subscribe => SUBSCRIBE
    case PSubscribe => PSUBSCRIBE
    case Unsubscribe => UNSUBSCRIBE
    case PUnsubscribe => PUNSUBSCRIBE
    case Message => MESSAGE
    case PMessage => PMESSAGE
  }

  /** The kind a tag field names, if it names one. */
  function KindOf(tag: Value): (r: Option<Kind>)
    ensures r.Some? ==> tag == Str(KindName(r.value))
    ensures r.None? ==> forall k :: tag != Str(KindName(k))
  {
    if tag == Str(SUBSCRIBE) then Some(Subscribe)
    else if tag == Str(PSUBSCRIBE) then Some(PSubscribe)
    else if tag == Str(UNSUBSCRIBE) then Some(Unsubscribe)
    else if tag == Str(PUNSUBSCRIBE) then Some(PUnsubscribe)
    else if tag == Str(MESSAGE) then Some(Message)
    else if tag == Str(PMESSAGE) then Some(PMessage)
    else None
  }

  /** Each kind is recognised from its own tag, so the six tags are distinct. */
  lemma KindOfKindName(k: Kind)
    ensures KindOf(Str(KindName(k))) == Some(k)
  {
  }

  /** The tag of a subscribe-family acknowledgement. */
  predicate IsAckTag(tag: Value)
  {
    tag == Str(SUBSCRIBE) || tag == Str(PSUBSCRIBE) || tag == Str(UNSUBSCRIBE) || tag == Str(PUNSUBSCRIBE)
  }

  /** The nested record describing the master of an instance that is not
      itself a master. */
  datatype MasterInfo = MasterInfo(name: string, host: Option<string>, port: int)

  /** The decoded details of an instance announcement; pieces missing from
      the payload are None. */
  datatype Details = Details(role: string, name: Option<string>, host: Option<string>,
                             port: int, master: Option<MasterInfo>)

  /** What a notification carries: decoded instance details, or the raw
      payload of a switch-master announcement handed to parseSwitch. */
  datatype Instance = InstanceDetails(details: Details) | SwitchPayload(raw: Value)

  /** The record getValue returns for one frame. */
  datatype Event =
    | Ack(kind: Value, channel: Value, payload: Value)
    | Notification(kind: Value, channel: Value, instance: Option<Instance>)

  /** The ClientException raised for a frame of unknown kind. */
  datatype ClientError = UnknownMessageType(tag: Value)

  datatype Result<T> = Ok(value: T) | Err(error: ClientError)

  /** A field used where PHP expects a string: null reads as "", an
      integer as its decimal text. */
  function AsString(v: Value): string
  {
    match v
    case Str(s) => s
    case Int(i) => IntToString(i)
    case Null => ""
  }

  /** The i-th variable of a list() over an exploded string; a missing
      piece is null. */
  function Piece(pieces: seq<string>, i: nat): Option<string>
  {
    if i < |pieces| then Some(pieces[i]) else None
  }

  /** (int) of a piece that may be null; (int) null is 0. */
  function CastPiece(p: Option<string>): int
  {
    match p
    case Some(s) => IntCast(s)
    case None => 0
  }

  /** explode(' ', $master, 3) where $master may be null (read as ""). */
  function NestedPieces(master: Option<string>): (r: seq<string>)
    ensures 1 <= |r| <= 3
  {
    Explode(match master case Some(m) => m case None => "", 3)
  }

  /** parseDetails: "type name host port [master]" cut by explode(' ', _, 5);
      when type is not "master", the fifth piece is cut again by
      explode(' ', _, 3) into the master's name and host. As the source is
      written, the master's port is the cast of the outer port, and the
      third nested piece is ignored. */
  function ParseDetails(payload: Value): (r: Details)
    ensures r.master.Some? <==> r.role != MASTER_ROLE
    ensures r.master.Some? ==> r.master.value.port == r.port
  {
    var parts := Explode(AsString(payload), 5);
    var port := CastPiece(Piece(parts, 3));
    var master :=
      if parts[0] != MASTER_ROLE then
        var nested := NestedPieces(Piece(parts, 4));
        Some(MasterInfo(nested[0], Piece(nested, 1), port))
      else None;
    Details(parts[0], Piece(parts, 1), Piece(parts, 2), port, master)
  }

  /** parseDetails as evidently intended: the master's port is the cast of
      the third nested piece. Every other field is as in ParseDetails. */
  function ParseDetailsIntended(payload: Value): (r: Details)
    ensures r.(master := None) == ParseDetails(payload).(master := None)
    ensures r.master.Some? <==> ParseDetails(payload).master.Some?
    ensures var d := ParseDetails(payload);
      r.master.Some? && d.master.Some? ==>
        r.master.value.name == d.master.value.name && r.master.value.host == d.master.value.host
    ensures r.master.Some? ==>
      r.master.value.port == CastPiece(Piece(NestedPieces(Piece(Explode(AsString(payload), 5), 4)), 2))
  {
    var d := ParseDetails(payload);
    match d.master
    case None => d
    case Some(m) =>
      var nested := NestedPieces(Piece(Explode(AsString(payload), 5), 4));
      d.(master := Some(m.(port := CastPiece(Piece(nested, 2)))))
  }

  /** handleMessage: a (P)MESSAGE becomes a notification of kind MESSAGE on
      the given channel; tilt channels carry no instance, switch-master
      hands its payload to parseSwitch, any other channel to parseDetails. */
  function HandleMessage(channel: Value, payload: Value): (r: Event)
    ensures r.Notification? && r.kind == Str(MESSAGE) && r.channel == channel
    ensures r.instance.None? <==> channel == Str(TILT_ON) || channel == Str(TILT_OFF)
    ensures r.instance.Some? && channel == Str(SWITCH_MASTER) ==> r.instance.value == SwitchPayload(payload)
    ensures r.instance.Some? && channel != Str(SWITCH_MASTER) ==> r.instance.value == InstanceDetails(ParseDetails(payload))
  {
    if channel == Str(TILT_ON) || channel == Str(TILT_OFF) then
      Notification(Str(MESSAGE), channel, None)
    else if channel == Str(SWITCH_MASTER) then
      Notification(Str(MESSAGE), channel, Some(SwitchPayload(payload)))
    else
      Notification(Str(MESSAGE), channel, Some(InstanceDetails(ParseDetails(payload))))
  }

  /** An announcement "type name host port rest" decodes its four leading
      tokens exactly; a master record is present exactly when type is not
      "master". */
  lemma ParseDetailsTokens(role: string, name: string, host: string, port: string, rest: string)
    requires SPACE !in role && SPACE !in name && SPACE !in host && SPACE !in port
    ensures var d := ParseDetails(Str(role + [SPACE] + name + [SPACE] + host + [SPACE] + port + [SPACE] + rest));
      d.role == role && d.name == Some(name) && d.host == Some(host) && d.port == IntCast(port) &&
      (d.master.Some? <==> role != MASTER_ROLE)
  {
    ExplodeFive(role, name, host, port, rest);
  }

  /** A master announcement of exactly four tokens decodes to those four
      fields and no master record. */
  lemma ParseMasterAnnouncement(name: string, host: string, port: string)
    requires SPACE !in name && SPACE !in host && SPACE !in port
    ensures ParseDetails(Str(MASTER_ROLE + [SPACE] + name + [SPACE] + host + [SPACE] + port))
         == Details(MASTER_ROLE, Some(name), Some(host), IntCast(port), None)
  {
    ExplodeFour(MASTER_ROLE, name, host, port);
  }

  /** A replica or sentinel announcement "type name host port mname mhost
      mport" decodes the master's name and host from the fifth piece, but
      gives the master the instance's own port. */
  lemma ParseNestedMaster(role: string, name: string, host: string, port: string,
                          mname: string, mhost: string, mport: string)
    requires role != MASTER_ROLE
    requires SPACE !in role && SPACE !in name && SPACE !in host && SPACE !in port
    requires SPACE !in mname && SPACE !in mhost
    ensures ParseDetails(Str(role + [SPACE] + name + [SPACE] + host + [SPACE] + port + [SPACE] +
                             (mname + [SPACE] + mhost + [SPACE] + mport)))
         == Details(role, Some(name), Some(host), IntCast(port),
                    Some(MasterInfo(mname, Some(mhost), IntCast(port))))
  {
    var rest := mname + [SPACE] + mhost + [SPACE] + mport;
    var parts := Explode(role + [SPACE] + name + [SPACE] + host + [SPACE] + port + [SPACE] + rest, 5);
    ExplodeFive(role, name, host, port, rest);
    assert parts == [role, name, host, port, rest];
    ExplodeThree(mname, mhost, mport);
    assert NestedPieces(Piece(parts, 4)) == [mname, mhost, mport];
  }

  /** An announcement of an instance that is not a master but whose payload
      stops after the port still gets a master record: its name is "", its
      host is missing and its port is the instance's port. */
  lemma ParseTruncatedAnnouncement(role: string, name: string, host: string, port: string)
    requires role != MASTER_ROLE
    requires SPACE !in role && SPACE !in name && SPACE !in host && SPACE !in port
    ensures ParseDetails(Str(role + [SPACE] + name + [SPACE] + host + [SPACE] + port))
         == Details(role, Some(name), Some(host), IntCast(port), Some(MasterInfo("", None, IntCast(port))))
  {
    ExplodeFour(role, name, host, port);
    assert Explode("", 3) == [""];
  }

  /** The discrepancy: whenever the two ports differ, the master record
      ParseDetails builds does not carry the master's port. */
  lemma NestedPortAsWritten(role: string, name: string, host: string, port: string,
                            mname: string, mhost: string, mport: string)
    requires role != MASTER_ROLE
    requires SPACE !in role && SPACE !in name && SPACE !in host && SPACE !in port
    requires SPACE !in mname && SPACE !in mhost
    requires IntCast(port) != IntCast(mport)
    ensures var d := ParseDetails(Str(role + [SPACE] + name + [SPACE] + host + [SPACE] + port + [SPACE] +
                                      (mname + [SPACE] + mhost + [SPACE] + mport)));
      d.master.Some? && d.master.value.port != IntCast(mport)
  {
    ParseNestedMaster(role, name, host, port, mname, mhost, mport);
  }

  /** The corrected decoder gives the master the port its own piece names. */
  lemma ParseNestedMasterIntended(role: string, name: string, host: string, port: string,
                                  mname: string, mhost: string, mport: string)
    requires role != MASTER_ROLE
    requires SPACE !in role && SPACE !in name && SPACE !in host && SPACE !in port
    requires SPACE !in mname && SPACE !in mhost
    ensures ParseDetailsIntended(Str(role + [SPACE] + name + [SPACE] + host + [SPACE] + port + [SPACE] +
                                     (mname + [SPACE] + mhost + [SPACE] + mport)))
         == Details(role, Some(name), Some(host), IntCast(port),
                    Some(MasterInfo(mname, Some(mhost), IntCast(mport))))
  {
    var rest := mname + [SPACE] + mhost + [SPACE] + mport;
    var parts := Explode(role + [SPACE] + name + [SPACE] + host + [SPACE] + port + [SPACE] + rest, 5);
    ExplodeFive(role, name, host, port, rest);
    assert parts == [role, name, host, port, rest];
    ExplodeThree(mname, mhost, mport);
    assert NestedPieces(Piece(parts, 4)) == [mname, mhost, mport];
  }

  /** The pub/sub context's state: whether the subscription has ended. */
  class SentinelContext {
    /** Set once an acknowledgement reports that no subscription is left. */
    var invalidated: bool

    constructor ()
      ensures !invalidated
    {
      invalidated := false;
    }

    /** getValue for one frame read from the connection: an acknowledgement
        is returned as it came, and invalidates the context when its count is
        the integer 0; a (P)MESSAGE is handed to handleMessage with its
        channel and payload fields; any other kind is an error. */
    method GetValue(response: Frame) returns (r: Result<Event>)
      modifies this
      ensures IsAckTag(Field(response, 0)) ==>
                r == Ok(Ack(Field(response, 0), Field(response, 1), Field(response, 2)))
      ensures Field(response, 0) == Str(MESSAGE) ==>
                r == Ok(HandleMessage(Field(response, 1), Field(response, 2)))
      ensures Field(response, 0) == Str(PMESSAGE) ==>
                r == Ok(HandleMessage(Field(response, 2), Field(response, 3)))
      ensures KindOf(Field(response, 0)).None? <==> r.Err?
      ensures r.Err? ==> r.error == UnknownMessageType(Field(response, 0))
      ensures r.Ok? && r.value.Notification? ==> r.value.kind == Str(MESSAGE)
      ensures invalidated == (old(invalidated) || (IsAckTag(Field(response, 0)) && Field(response, 2) == Int(0)))
    {
      var tag := Field(response, 0);
      match KindOf(tag)
      case Some(k) =>
        if k.IsAck() {
          if Field(response, 2) == Int(0) {
            invalidated := true;
          }
          r := Ok(Ack(tag, Field(response, 1), Field(response, 2)));
        } else if k == Message {
          r := Ok(HandleMessage(Field(response, 1), Field(response, 2)));
        } else {
          r := Ok(HandleMessage(Field(response, 2), Field(response, 3)));
        }
      case None =>
        r := Err(UnknownMessageType(tag));
    }
  }

  /** A session as a caller sees it: two acknowledgements with positive
      counts keep it active, the unsubscribe acknowledgement with count 0
      ends it, and later frames never revive it. */
  method SubscriptionLifecycle()
  {
    var context := new SentinelContext();
    var e := context.GetValue([Str(SUBSCRIBE), Str("a"), Int(1)]);
    assert e == Ok(Ack(Str(SUBSCRIBE), Str("a"), Int(1))) && !context.invalidated;
    e := context.GetValue([Str(SUBSCRIBE), Str("b"), Int(2)]);
    assert !context.invalidated;
    e := context.GetValue([Str(UNSUBSCRIBE), Str("a"), Str("0")]);
    assert !context.invalidated;
    e := context.GetValue([Str(MESSAGE), Str(TILT_ON), Str("")]);
    assert e == Ok(Notification(Str(MESSAGE), Str(TILT_ON), None)) && !context.invalidated;
    e := context.GetValue([Int(7), Str("a"), Int(0)]);
    assert e.Err? && !context.invalidated;
    e := context.GetValue([Str(PUNSUBSCRIBE), Str("b"), Int(0)]);
    assert e == Ok(Ack(Str(PUNSUBSCRIBE), Str("b"), Int(0))) && context.invalidated;
    e := context.GetValue([Str(SUBSCRIBE), Str("c"), Int(1)]);
    assert context.invalidated;
  }
}
