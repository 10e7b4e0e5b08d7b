/** What the graph keeps of any messages at all: with ids that are missing, and with ids that come back on another
    payload. */
module GraphMessages {
  import opened GraphProjection
  import opened InvoiceService

  function AfterMessages(messages: seq<Message>): Graph {
    if messages == [] then EMPTY
    else Upsert(AfterMessages(messages[..|messages| - 1]), messages[|messages| - 1])
  }

  /** The id is missing, or no earlier message has it. */
  predicate IsFresh(messages: seq<Message>, k: nat)
    requires k < |messages|
  {
    messages[k].eventId == 0 || forall j :: 0 <= j < k ==> messages[j].eventId != messages[k].eventId
  }

  predicate IsShown(messages: seq<Message>, k: nat)
    requires k < |messages|
  {
    && IsFresh(messages, k)
    && forall j :: k < j < |messages| && IsFresh(messages, j) ==> messages[j].payload.id != messages[k].payload.id
  }

  predicate Repeats(node: Node, payload: Payload) {
    && node.number == payload.number && node.amount == payload.payable && node.currency == payload.currency
    && node.status == payload.status && node.issueDate == payload.issueDate && node.dueDate == payload.dueDate
    && node.lendingProduct == payload.lendingProduct && node.funder == payload.funder
  }

  lemma OneMoreMessage(init: seq<Message>, last: Message)
    ensures var all := init + [last];
      && (forall k :: 0 <= k < |init| ==> (IsFresh(all, k) <==> IsFresh(init, k)))
      && (IsFresh(all, |init|) <==> last.eventId == 0 || forall j :: 0 <= j < |init| ==>
                                                        init[j].eventId != last.eventId)
      && (forall k :: 0 <= k < |init| ==>
            (IsShown(all, k) <==> IsShown(init, k) && !(IsFresh(all, |init|) && last.payload.id == init[k].payload.id)))
  {
    var all := init + [last];
    assert forall k :: 0 <= k < |init| ==> all[k] == init[k];
    forall k | 0 <= k < |init| ensures IsFresh(all, k) <==> IsFresh(init, k) {}
    hide IsFresh;
    forall k | 0 <= k < |init|
      ensures IsShown(all, k) <==> IsShown(init, k) && !(IsFresh(all, |init|) && last.payload.id == init[k].payload.id)
    {
      if IsShown(all, k) {
        assert forall j :: k < j < |init| && IsFresh(init, j) ==> all[j].payload.id != all[k].payload.id;
      }
    }
  }

  ghost predicate Seen(g: Graph, messages: seq<Message>) {
    forall id: nat :: id in g.seen <==> id != 0 && exists k :: 0 <= k < |messages| && messages[k].eventId == id
  }

  ghost predicate NodesAre(g: Graph, messages: seq<Message>) {
    && (forall id :: id in g.invoices ==>
          exists k :: 0 <= k < |messages| && IsShown(messages, k) && messages[k].payload.id == id)
    && (forall k :: 0 <= k < |messages| && IsShown(messages, k) ==>
          && messages[k].payload.id in g.invoices
          && Repeats(g.invoices[messages[k].payload.id], messages[k].payload))
  }

  ghost predicate EdgesAre(g: Graph, messages: seq<Message>) {
    && (forall e: (nat, nat) :: e in g.issued <==>
          exists k :: 0 <= k < |messages| && IsFresh(messages, k)
                      && e == (messages[k].payload.issuer, messages[k].payload.id))
    && (forall e: (nat, nat) :: e in g.owedBy <==>
          exists k :: 0 <= k < |messages| && IsFresh(messages, k)
                      && e == (messages[k].payload.id, messages[k].payload.debtor))
  }

  lemma SeenOneMore(g: Graph, init: seq<Message>, last: Message)
    requires Seen(g, init)
    ensures Seen(Upsert(g, last), init + [last])
    ensures IsFresh(init + [last], |init|) <==> last.eventId == 0 || last.eventId !in g.seen
  {
    var all := init + [last];
    OneMoreMessage(init, last);
    hide IsFresh, IsShown;
    assert Upsert(g, last).seen == if last.eventId == 0 then g.seen else g.seen + {last.eventId};
    forall id: nat
      ensures id in Upsert(g, last).seen <==> id != 0 && exists k :: 0 <= k < |all| && all[k].eventId == id
    {
      if id in g.seen {
        var k :| 0 <= k < |init| && init[k].eventId == id;
        assert all[k].eventId == id;
      }
      if id == last.eventId {
        assert all[|init|].eventId == id;
      }
    }
  }

  lemma NodesOneMore(g: Graph, init: seq<Message>, last: Message)
    requires NodesAre(g, init) && Seen(g, init)
    ensures NodesAre(Upsert(g, last), init + [last])
  {
    SeenOneMore(g, init, last);
    OneMoreMessage(init, last);
    var all, after := init + [last], Upsert(g, last);
    assert IsFresh(all, |init|) ==> IsShown(all, |init|);
    assert after.invoices
        == if IsFresh(all, |init|) then g.invoices[last.payload.id := NodeOf(last.payload)] else g.invoices;
    hide Seen, IsFresh, IsShown, Upsert, Write;
    forall id | id in after.invoices
      ensures exists k :: 0 <= k < |all| && IsShown(all, k) && all[k].payload.id == id
    {
      if IsFresh(all, |init|) && id == last.payload.id {
        assert IsShown(all, |init|);
      } else {
        var k :| 0 <= k < |init| && IsShown(init, k) && init[k].payload.id == id;
        assert IsShown(all, k);
      }
    }
  }

  lemma EdgesOneMore(g: Graph, init: seq<Message>, last: Message)
    requires EdgesAre(g, init) && Seen(g, init)
    ensures EdgesAre(Upsert(g, last), init + [last])
  {
    SeenOneMore(g, init, last);
    OneMoreMessage(init, last);
    var all, after := init + [last], Upsert(g, last);
    assert after.issued
        == if IsFresh(all, |init|) then g.issued + {(last.payload.issuer, last.payload.id)} else g.issued;
    assert after.owedBy
        == if IsFresh(all, |init|) then g.owedBy + {(last.payload.id, last.payload.debtor)} else g.owedBy;
    hide Seen, IsFresh, IsShown, Upsert, Write;
    assert forall k :: 0 <= k < |init| ==> all[k] == init[k];
    forall e: (nat, nat)
      ensures e in after.issued <==>
              exists k :: 0 <= k < |all| && IsFresh(all, k) && e == (all[k].payload.issuer, all[k].payload.id)
    {
      if e in g.issued {
        var k :| 0 <= k < |init| && IsFresh(init, k) && e == (init[k].payload.issuer, init[k].payload.id);
        assert IsFresh(all, k);
      }
    }
    forall e: (nat, nat)
      ensures e in after.owedBy <==>
              exists k :: 0 <= k < |all| && IsFresh(all, k) && e == (all[k].payload.id, all[k].payload.debtor)
    {
      if e in g.owedBy {
        var k :| 0 <= k < |init| && IsFresh(init, k) && e == (init[k].payload.id, init[k].payload.debtor);
        assert IsFresh(all, k);
      }
    }
  }

  /** A message without an id is always written, one with an id only if no earlier one has it. Each invoice shows,
      field by field, the last payload written for it, the edges are those of all payloads written, and the ids seen
      are those of all messages. */
  lemma {:induction false} MessagesAreTold(messages: seq<Message>)
    ensures var g := AfterMessages(messages);
      Seen(g, messages) && NodesAre(g, messages) && EdgesAre(g, messages)
  {
    hide Seen, NodesAre, EdgesAre, Upsert;
    if messages == [] {
      EmptyIsTold();
    } else {
      var init, last := messages[..|messages| - 1], messages[|messages| - 1];
      MessagesAreTold(init);
      assert init + [last] == messages;
      SeenOneMore(AfterMessages(init), init, last);
      NodesOneMore(AfterMessages(init), init, last);
      EdgesOneMore(AfterMessages(init), init, last);
    }
  }

  lemma EmptyIsTold()
    ensures Seen(EMPTY, []) && NodesAre(EMPTY, []) && EdgesAre(EMPTY, [])
  {
  }
}
