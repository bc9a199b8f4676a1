/** A channel and its membership (CChannel, with the member container as the
    header file declares it: a map from client to status). */
module Channel {
  import opened Irc

  /** The name keeps its configured spelling; `allowedUsers` holds lowercased
      nicknames; `clients` maps each member to its status. */
  datatype Channel = Channel(
    name: string,
    topic: string,
    allowedUsers: set<string>,
    allowObservers: bool,
    clients: map<ClientId, ClientStatus>)

  /** Name, topic, allowed users and the observer flag never change after the
      channel has been made. */
  predicate SameSettings(a: Channel, b: Channel)
  {
    a.name == b.name && a.topic == b.topic && a.allowedUsers == b.allowedUsers
    && a.allowObservers == b.allowObservers
  }

  function NewChannel(name: string, topic: string, allowedUsers: set<string>, allowObservers: bool): (ch: Channel)
    ensures ch.clients == map[]
    ensures ch.name == name && ch.topic == topic && ch.allowedUsers == allowedUsers
    ensures ch.allowObservers == allowObservers
  {
    Channel(name, topic, allowedUsers, allowObservers, map[])
  }

  /** std::map::insert: a new member gets `status`, an existing one keeps its own. */
  function AddClient(ch: Channel, client: ClientId, status: ClientStatus): (r: Channel)
    ensures r.clients.Keys == ch.clients.Keys + {client}
    ensures client !in ch.clients ==> r.clients[client] == status
    ensures forall c :: c in ch.clients ==> r.clients[c] == ch.clients[c]
    ensures SameSettings(r, ch)
  {
    if client in ch.clients then ch else ch.(clients := ch.clients[client := status])
  }

  /** std::map::erase by key: removing a non-member changes nothing. */
  function RemoveClient(ch: Channel, client: ClientId): (r: Channel)
    ensures r.clients.Keys == ch.clients.Keys - {client}
    ensures forall c :: c in r.clients ==> r.clients[c] == ch.clients[c]
    ensures SameSettings(r, ch)
  {
    ch.(clients := ch.clients - {client})
  }

  /** Adding a member twice is adding it once; adding an existing member is a no-op. */
  lemma AddClientIdempotent(ch: Channel, client: ClientId, status: ClientStatus, other: ClientStatus)
    ensures AddClient(AddClient(ch, client, status), client, other) == AddClient(ch, client, status)
    ensures client in ch.clients ==> AddClient(ch, client, status) == ch
  {
  }

  /** Removing twice is removing once; removing a non-member is a no-op. */
  lemma RemoveClientIdempotent(ch: Channel, client: ClientId)
    ensures RemoveClient(RemoveClient(ch, client), client) == RemoveClient(ch, client)
    ensures client !in ch.clients ==> RemoveClient(ch, client) == ch
  {
    assert RemoveClient(RemoveClient(ch, client), client).clients == RemoveClient(ch, client).clients;
    assert client !in ch.clients ==> RemoveClient(ch, client).clients == ch.clients;
  }

  /** Removing a member just added restores the channel. */
  lemma RemoveUndoesAdd(ch: Channel, client: ClientId, status: ClientStatus)
    requires client !in ch.clients
    ensures RemoveClient(AddClient(ch, client, status), client) == ch
  {
    assert RemoveClient(AddClient(ch, client, status), client).clients == ch.clients;
  }
}
