/**
  * The fan-out rule shared by both relay loops: walk a conversation's member
  * list in order, skip the sender, skip members with no entry in the
  * connection table, and write the frame to every other member's connection.
  * A failed write is only logged, so the walk goes on.
  */
module Dispatch {
  import opened Transport

  /** The connection table: username to that user's live connection. */
  type Table = map<string, ConnId>

  /** No connection is registered under two usernames. */
  ghost predicate Injective(table: Table) {
    forall u, w :: u in table && w in table && u != w ==> table[u] != table[w]
  }

  predicate Eligible(v: string, sender: string, table: Table) {
    v != sender && v in table
  }

  /** The members that are written to, in member-list order (with repeats, if the list repeats). */
  function Targets(members: seq<string>, sender: string, table: Table): seq<string> {
    if members == [] then []
    else (if Eligible(members[0], sender, table) then [members[0]] else [])
         + Targets(members[1..], sender, table)
  }

  /** The writes one relay makes, in order. */
  function Fanout(members: seq<string>, sender: string, table: Table, frame: Frame, fails: set<ConnId>): seq<Effect> {
    if members == [] then []
    else (if Eligible(members[0], sender, table) then [WriteTo(table[members[0]], frame, fails)] else [])
         + Fanout(members[1..], sender, table, frame, fails)
  }

  /** The connections written to, ignoring whether each write succeeded. */
  function Attempts(effects: seq<Effect>): (conns: seq<ConnId>)
    ensures |conns| == |effects|
  {
    if effects == [] then []
    else [effects[0].conn] + Attempts(effects[1..])
  }

  /** Walking a list in two parts writes what walking each part writes, in order. */
  lemma {:induction false} FanoutAppend(xs: seq<string>, ys: seq<string>, sender: string, table: Table, frame: Frame, fails: set<ConnId>)
    ensures Fanout(xs + ys, sender, table, frame, fails)
         == Fanout(xs, sender, table, frame, fails) + Fanout(ys, sender, table, frame, fails)
  {
    if xs != [] {
      assert (xs + ys)[0] == xs[0] && (xs + ys)[1..] == xs[1..] + ys;
      FanoutAppend(xs[1..], ys, sender, table, frame, fails);
    } else {
      assert xs + ys == ys;
    }
  }

  /** The k-th write goes to the k-th target's connection and carries the frame unchanged. */
  lemma {:induction false} FanoutFollowsTargets(members: seq<string>, sender: string, table: Table, frame: Frame, fails: set<ConnId>)
    ensures var ws := Fanout(members, sender, table, frame, fails);
            var ts := Targets(members, sender, table);
            |ws| == |ts| &&
            forall k :: 0 <= k < |ws| ==>
              ts[k] in table && ws[k] == Write(table[ts[k]], frame, table[ts[k]] !in fails)
  {
    if members != [] {
      FanoutFollowsTargets(members[1..], sender, table, frame, fails);
    }
  }

  /** Every eligible member is written to once per occurrence in the list; nobody else is. */
  lemma {:induction false} TargetsCount(members: seq<string>, sender: string, table: Table, v: string)
    ensures multiset(Targets(members, sender, table))[v]
         == if Eligible(v, sender, table) then multiset(members)[v] else 0
  {
    if members != [] {
      TargetsCount(members[1..], sender, table, v);
      assert members == [members[0]] + members[1..];
    }
  }

  lemma {:induction false} TargetsMembership(members: seq<string>, sender: string, table: Table, v: string)
    ensures v in Targets(members, sender, table) <==> v in members && v != sender && v in table
  {
    TargetsCount(members, sender, table, v);
  }

  /**
    * A connection is written to exactly when it belongs to a member, other than
    * the sender, that is in the table.
    */
  lemma Recipients(members: seq<string>, sender: string, table: Table, frame: Frame, fails: set<ConnId>, c: ConnId)
    ensures c in Attempts(Fanout(members, sender, table, frame, fails))
        <==> exists v :: v in members && v != sender && v in table && table[v] == c
  {
    var ws := Fanout(members, sender, table, frame, fails);
    var ts := Targets(members, sender, table);
    FanoutFollowsTargets(members, sender, table, frame, fails);
    AttemptsAt(ws);
    if c in Attempts(ws) {
      var k :| 0 <= k < |ws| && Attempts(ws)[k] == c;
      assert ts[k] in ts;
      TargetsMembership(members, sender, table, ts[k]);
    }
    if v :| v in members && v != sender && v in table && table[v] == c {
      TargetsMembership(members, sender, table, v);
      var k :| 0 <= k < |ts| && ts[k] == v;
      assert Attempts(ws)[k] == c;
    }
  }

  lemma {:induction false} AttemptsAt(effects: seq<Effect>)
    ensures forall k :: 0 <= k < |effects| ==> Attempts(effects)[k] == effects[k].conn
  {
    if effects != [] {
      AttemptsAt(effects[1..]);
    }
  }

  /** With no connection shared between users, the sender's own connection is never written to. */
  lemma SenderReceivesNothing(members: seq<string>, sender: string, table: Table, frame: Frame, fails: set<ConnId>)
    requires Injective(table) && sender in table
    ensures table[sender] !in Attempts(Fanout(members, sender, table, frame, fails))
  {
    Recipients(members, sender, table, frame, fails, table[sender]);
  }

  /** Failed writes change nothing about who is written to: failures are isolated per recipient. */
  lemma {:induction false} FailureIsolation(members: seq<string>, sender: string, table: Table, frame: Frame, fails1: set<ConnId>, fails2: set<ConnId>)
    ensures Attempts(Fanout(members, sender, table, frame, fails1))
         == Attempts(Fanout(members, sender, table, frame, fails2))
  {
    if members != [] {
      FailureIsolation(members[1..], sender, table, frame, fails1, fails2);
      var ws1 := Fanout(members, sender, table, frame, fails1);
      var ws2 := Fanout(members, sender, table, frame, fails2);
      var head1 := Fanout([members[0]], sender, table, frame, fails1);
      var head2 := Fanout([members[0]], sender, table, frame, fails2);
      FanoutAppend([members[0]], members[1..], sender, table, frame, fails1);
      FanoutAppend([members[0]], members[1..], sender, table, frame, fails2);
      assert [members[0]] + members[1..] == members;
      AttemptsAppend(head1, Fanout(members[1..], sender, table, frame, fails1));
      AttemptsAppend(head2, Fanout(members[1..], sender, table, frame, fails2));
    }
  }

  lemma {:induction false} AttemptsAppend(xs: seq<Effect>, ys: seq<Effect>)
    ensures Attempts(xs + ys) == Attempts(xs) + Attempts(ys)
  {
    if xs != [] {
      assert (xs + ys)[1..] == xs[1..] + ys;
      AttemptsAppend(xs[1..], ys);
    } else {
      assert xs + ys == ys;
    }
  }

  /** With no member in the table (other than possibly the sender), a relay writes nothing. */
  lemma {:induction false} NobodyOnline(members: seq<string>, sender: string, table: Table, frame: Frame, fails: set<ConnId>)
    requires forall v :: v in members && v != sender ==> v !in table
    ensures Fanout(members, sender, table, frame, fails) == []
  {
    if members != [] {
      NobodyOnline(members[1..], sender, table, frame, fails);
    }
  }

  /** Every write of a relay carries the one frame it was given. */
  lemma {:induction false} FanoutFrames(members: seq<string>, sender: string, table: Table, frame: Frame, fails: set<ConnId>)
    ensures forall e :: e in Fanout(members, sender, table, frame, fails) ==> e.Write? && e.frame == frame
  {
    FanoutFollowsTargets(members, sender, table, frame, fails);
  }
}
