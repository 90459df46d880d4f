/** The message-creation endpoint (pages/api/socket/messages/index.ts): a chain
    of guards answered with 405, 401, 404 or 500, and on success one row added
    to the message table and one broadcast on `chat:<channelId>:messages`. */
module MessagesApi {
  import opened Js
  import Profiles

  /** A member's role in its server. */
  datatype Role = Guest | Moderator | Admin

  /** A server member; `profileId` links it to the caller's profile. */
  datatype Member = Member(id: string, role: Role, profileId: string)

  datatype Server = Server(id: string, members: seq<Member>)

  datatype Channel = Channel(id: string, serverId: string)

  datatype Message = Message(
    id: string,
    content: Option<string>,
    fileUrl: Option<string>,
    channelId: string,
    memberId: string)

  /** The JSON body of the request. */
  datatype Body = Body(content: Option<string>, fileUrl: Option<string>)

  /** The HTTP method, the body and the two query parameters. */
  datatype Request = Request(httpMethod: string, body: Body, serverId: Option<string>, channelId: Option<string>)

  /** One socket broadcast: the event name and the message it carries. */
  datatype Event = Event(key: string, message: Message)

  /** The reply: an error status with its text, or 200 with the created message. */
  datatype Response = Failure(status: int, text: string) | Created(message: Message)

  /** What the guard chain decides: reject with a status, or create a message in
      the given channel for the given member. */
  datatype Decision = Reject(status: int, text: string) | Create(channelId: string, memberId: string)

  /** `chat:${channelId}:messages` */
  function ChannelKey(channelId: string): string
  {
    "chat:" + channelId + ":messages"
  }

  /** Prisma's `members: { some: { profileId } }` */
  predicate HasMember(server: Server, profileId: string)
  {
    exists m | m in server.members :: m.profileId == profileId
  }

  /** `db.server.findFirst` for the server with this id that has the caller as a member. */
  function FindServer(servers: seq<Server>, serverId: string, profileId: string): (r: Option<Server>)
    ensures r.Some? ==> r.value in servers && r.value.id == serverId && HasMember(r.value, profileId)
    ensures r.None? ==> forall s :: s in servers ==> !(s.id == serverId && HasMember(s, profileId))
    decreases |servers|
  {
    if servers == [] then None
    else if servers[0].id == serverId && HasMember(servers[0], profileId) then Some(servers[0])
    else FindServer(servers[1..], serverId, profileId)
  }

  /** `db.channel.findFirst` for the channel with this id in this server. */
  function FindChannel(channels: seq<Channel>, channelId: string, serverId: string): (r: Option<Channel>)
    ensures r.Some? ==> r.value in channels && r.value.id == channelId && r.value.serverId == serverId
    ensures r.None? ==> forall c :: c in channels ==> !(c.id == channelId && c.serverId == serverId)
    decreases |channels|
  {
    if channels == [] then None
    else if channels[0].id == channelId && channels[0].serverId == serverId then Some(channels[0])
    else FindChannel(channels[1..], channelId, serverId)
  }

  /** `members.find(member => member.profileId === profileId)`: the first such member. */
  function FindMember(members: seq<Member>, profileId: string): (r: Option<Member>)
    ensures r.Some? ==> exists i :: 0 <= i < |members| && members[i] == r.value && r.value.profileId == profileId
                                   && forall j :: 0 <= j < i ==> members[j].profileId != profileId
    ensures r.None? ==> forall m :: m in members ==> m.profileId != profileId
    decreases |members|
  {
    if members == [] then None
    else if members[0].profileId == profileId then Some(members[0])
    else
      var r := FindMember(members[1..], profileId);
      if r.Some? then
        ghost var i :| 0 <= i < |members[1..]| && members[1..][i] == r.value && r.value.profileId == profileId
                       && forall j :: 0 <= j < i ==> members[1..][j].profileId != profileId;
        assert members[i + 1] == r.value;
        assert forall j :: 0 <= j < i + 1 ==> members[j].profileId != profileId by {
          forall j | 0 <= j < i + 1 ensures members[j].profileId != profileId {
            if j > 0 { assert members[j] == members[1..][j - 1]; }
          }
        }
        r
      else r
  }

  /** The guard chain of the handler, on the caller's resolved profile (None
      when the request is unauthenticated). `storeFails` says that the
      database raises when queried; that is caught and answered with 500. */
  function Decide(req: Request, profile: Option<Profiles.Profile>, servers: seq<Server>,
                  channels: seq<Channel>, storeFails: bool): (d: Decision)
    ensures d.Reject? ==> d.status in {401, 404, 405, 500}
    ensures d.Create? ==> Truthy(req.channelId) && d.channelId == req.channelId.value
  {
    if req.httpMethod != "POST" then Reject(405, "Method not allowed")
    else if profile.None? then Reject(401, "Unauthorized")
    else if !Truthy(req.serverId) then Reject(404, "Server ID missing")
    else if !Truthy(req.channelId) then Reject(404, "Channel ID missing")
    else if !Truthy(req.body.content) && !Truthy(req.body.fileUrl) then Reject(404, "Content and File is missing")
    else if storeFails then Reject(500, "Internal Error")
    else
      var profileId := profile.value.id;
      match FindServer(servers, req.serverId.value, profileId)
      case None => Reject(404, "Server not found")
      case Some(server) =>
        match FindChannel(channels, req.channelId.value, req.serverId.value)
        case None => Reject(404, "Channel not found")
        case Some(channel) =>
          match FindMember(server.members, profileId)
          case None => Reject(404, "Member not found")
          case Some(member) => Create(channel.id, member.id)
  }

  /** The message table and the log of socket broadcasts, beside the server and
      channel tables the handler reads. */
  class MessageApi {
    var servers: seq<Server>
    var channels: seq<Channel>
    var messages: seq<Message>
    var emitted: seq<Event>

    constructor (servers: seq<Server>, channels: seq<Channel>)
      ensures this.servers == servers && this.channels == channels
      ensures messages == [] && emitted == []
    {
      this.servers := servers;
      this.channels := channels;
      messages := [];
      emitted := [];
    }

    /** The POST handler. `socketReady` says that the socket server is attached
        to the response (the optional chain reaches `emit`); `newId` is the id
        the database gives the new row. */
    method Post(req: Request, profile: Option<Profiles.Profile>, storeFails: bool, socketReady: bool, newId: string)
      returns (res: Response)
      modifies this`messages, this`emitted
      ensures var d := Decide(req, profile, servers, channels, storeFails);
        && (d.Reject? ==>
              res == Failure(d.status, d.text) && messages == old(messages) && emitted == old(emitted))
        && (d.Create? ==>
              var m := Message(newId, req.body.content, req.body.fileUrl, d.channelId, d.memberId);
              && res == Created(m)
              && messages == old(messages) + [m]
              && emitted == old(emitted) + (if socketReady then [Event(ChannelKey(req.channelId.value), m)] else []))
    {
      var d := Decide(req, profile, servers, channels, storeFails);
      if d.Reject? {
        return Failure(d.status, d.text);
      }
      var message := Message(newId, req.body.content, req.body.fileUrl, d.channelId, d.memberId);
      messages := messages + [message];
      var channelKey := ChannelKey(req.channelId.value);
      if socketReady {
        emitted := emitted + [Event(channelKey, message)];
      }
      res := Created(message);
    }
  }

  /** Any method other than POST is answered 405 before anything else. */
  lemma NonPostRejected(req: Request, profile: Option<Profiles.Profile>, servers: seq<Server>,
                        channels: seq<Channel>, storeFails: bool)
    requires req.httpMethod != "POST"
    ensures Decide(req, profile, servers, channels, storeFails) == Reject(405, "Method not allowed")
  {
  }

  /** A POST without a resolved profile is answered 401, whatever the ids, the
      body or the tables. */
  lemma UnauthenticatedRejected(req: Request, servers: seq<Server>, channels: seq<Channel>, storeFails: bool)
    requires req.httpMethod == "POST"
    ensures Decide(req, None, servers, channels, storeFails) == Reject(401, "Unauthorized")
  {
  }

  /** The request guards apply in order: server id, channel id, then content or
      file; the first that fails decides the 404 text, and none of them looks at
      the tables. */
  lemma GuardOrder(req: Request, profile: Profiles.Profile, servers: seq<Server>,
                   channels: seq<Channel>, storeFails: bool)
    requires req.httpMethod == "POST"
    ensures var d := Decide(req, Some(profile), servers, channels, storeFails);
      && (!Truthy(req.serverId) ==> d == Reject(404, "Server ID missing"))
      && (Truthy(req.serverId) && !Truthy(req.channelId) ==> d == Reject(404, "Channel ID missing"))
      && ((Truthy(req.serverId) && Truthy(req.channelId) && !Truthy(req.body.content) && !Truthy(req.body.fileUrl))
            ==> d == Reject(404, "Content and File is missing"))
  {
  }

  /** A message is created exactly when every guard passes, the store answers,
      the server exists with the caller as a member, and the channel belongs to
      that server. The new row then names the requested channel and a member of
      that server whose profile is the caller's. */
  lemma {:induction false} CreateIff(req: Request, profile: Option<Profiles.Profile>, servers: seq<Server>,
                                     channels: seq<Channel>, storeFails: bool)
    ensures Decide(req, profile, servers, channels, storeFails).Create? <==>
      && req.httpMethod == "POST" && profile.Some?
      && Truthy(req.serverId) && Truthy(req.channelId)
      && (Truthy(req.body.content) || Truthy(req.body.fileUrl))
      && !storeFails
      && (exists s :: s in servers && s.id == req.serverId.value && HasMember(s, profile.value.id))
      && (exists c :: c in channels && c.id == req.channelId.value && c.serverId == req.serverId.value)
    ensures var d := Decide(req, profile, servers, channels, storeFails);
      d.Create? ==>
        && d.channelId == req.channelId.value
        && exists s, m :: s in servers && s.id == req.serverId.value && m in s.members
                          && m.id == d.memberId && m.profileId == profile.value.id
  {
    var d := Decide(req, profile, servers, channels, storeFails);
    if req.httpMethod == "POST" && profile.Some? && Truthy(req.serverId) && Truthy(req.channelId)
       && (Truthy(req.body.content) || Truthy(req.body.fileUrl)) && !storeFails
    {
      var pid := profile.value.id;
      var sv := FindServer(servers, req.serverId.value, pid);
      var ch := FindChannel(channels, req.channelId.value, req.serverId.value);
      if sv.Some? && ch.Some? {
        var s := sv.value;
        var w :| w in s.members && w.profileId == pid;
        var mem := FindMember(s.members, pid);
        assert mem.Some?;
        assert d == Create(ch.value.id, mem.value.id);
        var i :| 0 <= i < |s.members| && s.members[i] == mem.value && mem.value.profileId == pid
                 && forall j :: 0 <= j < i ==> s.members[j].profileId != pid;
        assert s in servers && s.id == req.serverId.value && mem.value in s.members;
      }
    }
  }

  /** The "Member not found" answer is unreachable: the server lookup already
      demands that the caller be a member. */
  lemma MemberAlwaysFound(req: Request, profile: Option<Profiles.Profile>, servers: seq<Server>,
                          channels: seq<Channel>, storeFails: bool)
    ensures Decide(req, profile, servers, channels, storeFails) != Reject(404, "Member not found")
  {
    if req.httpMethod == "POST" && profile.Some? && Truthy(req.serverId) && Truthy(req.channelId)
       && (Truthy(req.body.content) || Truthy(req.body.fileUrl)) && !storeFails
    {
      var sv := FindServer(servers, req.serverId.value, profile.value.id);
      if sv.Some? {
        var w :| w in sv.value.members && w.profileId == profile.value.id;
        assert FindMember(sv.value.members, profile.value.id).Some?;
      }
    }
  }

  /** When the store raises after the request guards pass, the answer is 500. */
  lemma StoreFailureIsInternalError(req: Request, profile: Profiles.Profile, servers: seq<Server>, channels: seq<Channel>)
    requires req.httpMethod == "POST" && Truthy(req.serverId) && Truthy(req.channelId)
    requires Truthy(req.body.content) || Truthy(req.body.fileUrl)
    ensures Decide(req, Some(profile), servers, channels, true) == Reject(500, "Internal Error")
  {
  }

  /** Distinct channels broadcast on distinct event names. */
  lemma {:induction false} ChannelKeyInjective(a: string, b: string)
    requires ChannelKey(a) == ChannelKey(b)
    ensures a == b
  {
    var ka, kb := ChannelKey(a), ChannelKey(b);
    assert |a| == |b|;
    forall i | 0 <= i < |a| ensures a[i] == b[i] {
      assert ka[5 + i] == a[i];
      assert kb[5 + i] == b[i];
    }
  }
}
