/** The chat server on its real arrays: the list searches and command_response. */
module ChatServing {
  import opened Text
  import opened Lists
  import opened WaitingList
  import opened ChatProtocol
  import opened Directory

  method FindItem(clients: GrowingList<Client>, name: string) returns (idx: int)
    requires clients.Valid()
    ensures idx == FirstOf(clients.Contents(), name)
  {
    var i := 0;
    while i < clients.occupied
      invariant i <= clients.occupied
      invariant forall j :: 0 <= j < i ==> clients.Contents()[j].name != name
    {
      var item := clients.Get(i);
      if item.value.name == name {
        FirstIs(clients.Contents(), name, i);
        return i;
      }
      i := i + 1;
    }
    idx := -1;
  }

  method HasNameItem(names: GrowingList<string>, name: string) returns (found: bool)
    requires names.Valid()
    ensures found <==> name in names.Contents()
  {
    for i := 0 to names.occupied
      invariant name !in names.Contents()[..i]
    {
      if names.items[i] == name {
        assert names.Contents()[i] == name;
        return true;
      }
    }
    found := false;
  }

  lemma LastIs(names: seq<string>, name: string, idx: int)
    requires -1 <= idx < |names| && (idx >= 0 ==> names[idx] == name)
    requires forall i :: idx < i < |names| ==> names[i] != name
    ensures LastOf(names, name) == idx
  {
  }

  /** Searches the whole list, so the last index with the name wins. */
  method RemoveNameItem(names: GrowingList<string>, name: string)
    requires names.Valid()
    modifies names`occupied, names.items
    ensures names.Valid() && names.Contents() == Without(old(names.Contents()), LastOf(old(names.Contents()), name))
  {
    var idx := -1;
    for i := 0 to names.occupied
      invariant -1 <= idx < i && (idx >= 0 ==> names.Contents()[idx] == name)
      invariant forall j :: idx < j < i ==> names.Contents()[j] != name
    {
      if names.items[i] == name { idx := i; }
    }
    LastIs(names.Contents(), name, idx);
    if idx == -1 { return; }
    names.Remove(idx);
  }

  class Server {
    var clients: GrowingList<Client>
    var clientNames: GrowingList<string>
    var next: nat

    ghost predicate Valid()
      reads this, clients, clientNames
    {
      clients.Valid() && clientNames.Valid()
    }

    ghost function View(): State
      reads this, clients, clientNames, clients.items, clientNames.items
      requires Valid()
    {
      State(clients.Contents(), clientNames.Contents(), next)
    }

    ghost function Repr(): set<object>
      reads this, clients, clientNames
    {
      {this, clients, clients.items, clientNames, clientNames.items}
    }

    constructor ()
      ensures Valid() && fresh(Repr()) && View() == EMPTY
    {
      clients := new GrowingList<Client>();
      clientNames := new GrowingList<string>();
      next := 0;
    }

    method AddClientName(name: string)
      requires Valid()
      modifies Repr()
      ensures Valid() && fresh(Repr() - old(Repr())) && View() == Apply(old(View()), AddName(name))
    {
      clientNames.Add(name);
    }

    /** The test, outside the lock, and then the section that adds the name. */
    method Enter(name: string) returns (added: bool)
      requires Valid()
      modifies Repr()
      ensures Valid() && fresh(Repr() - old(Repr()))
      ensures added <==> !Rejects(old(View()), TestName(name))
      ensures View() == if added then Apply(old(View()), AddName(name)) else old(View())
    {
      var found := HasNameItem(clientNames, name);
      if !found { AddClientName(name); }
      added := !found;
    }

    method StartWaiting(name: string, ip: string, port: int)
      requires Valid()
      modifies Repr()
      ensures Valid() && fresh(Repr() - old(Repr())) && View() == Apply(old(View()), AddWaiting(name, ip, port))
    {
      clients.Add(Client(next, name, ip, port));
      next := next + 1;
    }

    method TakeWaiting(name: string) returns (c: Option<Client>)
      requires Valid()
      modifies Repr()
      ensures Valid() && Repr() == old(Repr()) && View() == Apply(old(View()), DropWaiting(name))
      ensures Taken(old(View()), DropWaiting(name)) == if c.None? then [] else [c.value]
    {
      var idx := FindItem(clients, name);
      c := None;
      if idx >= 0 { c := clients.Pop(idx); }
    }

    method ForgetName(name: string)
      requires Valid()
      modifies Repr()
      ensures Valid() && Repr() == old(Repr()) && View() == Apply(old(View()), DropName(name))
    {
      RemoveNameItem(clientNames, name);
    }

    method AnswerConnect(connector: string, peer: string) returns (reply: string)
      requires Valid()
      modifies Repr()
      ensures Valid() && Repr() == old(Repr()) && View() == Apply(old(View()), HandOut(connector, peer))
      ensures ReplyTo(old(View()), Connect(connector, peer)) == Some(reply)
    {
      ghost var d := View();
      var c := TakeWaiting(peer);
      AnsweredConnect(d, connector, peer, c);
      reply := if c.Some? then FormatClient(c.value) else NO_SUCH_CLIENT;
    }

    method QuitBoth(name: string)
      requires Valid()
      modifies Repr()
      ensures Valid() && fresh(Repr() - old(Repr()))
      ensures View() == Apply(Apply(old(View()), DropWaiting(name)), DropName(name))
    {
      var _ := TakeWaiting(name);
      ForgetName(name);
    }

    /** One round of command_response, when no other handler comes between its sections. A
        command that lacks a field is left out: the program then uses a null pointer. */
    method CommandResponse(text: string, ip: string) returns (reply: Option<string>, closed: bool)
      requires Valid() && ParseCommand(text) != Incomplete
      modifies Repr()
      ensures Valid() && fresh(Repr() - old(Repr()))
      ensures View() == ApplyAll(old(View()), SectionsOf(ParseCommand(text), ip))
      ensures reply == ReplyTo(old(View()), ParseCommand(text))
      ensures closed <==> Closes(old(View()), ParseCommand(text))
      ensures Effect(old(View()), View(), ParseCommand(text), ip, reply, closed)
    {
      AllInTurn(View(), ParseCommand(text), ip);
      CommandEffect(View(), ParseCommand(text), ip);
      reply, closed := Execute(ParseCommand(text), ip);
    }

    method Execute(cmd: Command, ip: string) returns (reply: Option<string>, closed: bool)
      requires Valid() && cmd != Incomplete
      modifies Repr()
      ensures Valid() && fresh(Repr() - old(Repr()))
      ensures View() == InTurn(old(View()), cmd, ip)
      ensures reply == ReplyTo(old(View()), cmd)
      ensures closed <==> Closes(old(View()), cmd)
    {
      reply, closed := None, false;
      match cmd {
        case Join(name) =>
          var added := Enter(name);
          reply, closed := Some(if added then CONFIRM else REJECT), !added;
        case Quit(name) =>
          QuitBoth(name);
          closed := true;
        case Connect(name, peer) =>
          var text := AnswerConnect(name, peer);
          reply := Some(text);
        case Wait(name, port) => StartWaiting(name, ip, port);
        case List =>
          var temp, _ := PrintList(clients);
          reply := Some(temp);
        case LeaveWait(name) => var _ := TakeWaiting(name);
        case Wrong => reply := Some(WRONG);
      }
    }
  }
}
