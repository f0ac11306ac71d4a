/** An inbound blob from the node's side: policy, the name in the inbox, the transfer itself,
    the clean-up when it fails and the row in the transfer history. */
module BlobReceive {
  import opened BlobManifest
  import opened Bytes
  import opened Inbox
  import opened SafeName
  import opened Stream
  import opened Transfer
  import opened Wire
  import opened Wrappers

  datatype Status = InProgress | Done | Failed | Refused | Interrupted

  datatype Row = Row(peer: string, fileName: bytes, fileSize: int, sha256: string, status: Status)

  /** RecordFinish on one row: a hash is kept only for a transfer that is done. */
  function Finished(row: Row, status: Status, sha256: string): Row {
    row.(status := status, sha256 := if status == Done then sha256 else "")
  }

  class BlobNode {
    const h: Hash
    const manifests: Codec<Manifest>
    const explain: Fault -> bytes          // the text of a Validate error
    const policy: Manifest -> Verdict      // checkAccept: ACL, size cap, free space
    const inbox: Inbox
    const storing: bytes                   // "this node could not store the file"
    const hasHistory: bool
    const historyWorks: bool               // whether the history database never fails
    var history: map<nat, Row>
    var nextId: nat

    constructor (h: Hash, manifests: Codec<Manifest>, explain: Fault -> bytes, policy: Manifest -> Verdict,
                 inbox: Inbox, storing: bytes, hasHistory: bool, historyWorks: bool)
      ensures Fresh() && history == map[] && this.inbox == inbox
    {
      this.h, this.manifests, this.explain, this.policy := h, manifests, explain, policy;
      this.inbox, this.storing := inbox, storing;
      this.hasHistory, this.historyWorks := hasHistory, historyWorks;
      history, nextId := map[], 0;
    }

    /** Row ids are never reused. */
    ghost predicate Fresh()
      reads this
    {
      forall id :: id in history ==> id < nextId
    }

    method RecordStart(peer: string, name: bytes, size: int) returns (id: Option<nat>)
      requires Fresh()
      modifies this`history, this`nextId
      ensures Fresh()
      ensures id.None? ==> history == old(history)
      ensures id.Some? ==> hasHistory && id.value !in old(history)
                           && history == old(history)[id.value := Row(peer, name, size, "", InProgress)]
      ensures hasHistory && historyWorks ==> id.Some?
    {
      var ok := Works(historyWorks);
      if !hasHistory || !ok {
        return None;
      }
      id := Some(nextId);
      history := history[nextId := Row(peer, name, size, "", InProgress)];
      nextId := nextId + 1;
    }

    method RecordFinish(id: Option<nat>, err: Option<ReceiveError>, refused: bool, sha256: string)
      requires Fresh() && (id.Some? ==> id.value in history)
      modifies this`history
      ensures Fresh() && (id.None? ==> history == old(history))
      ensures id.Some? ==>
                || history == old(history)[id.value := Finished(old(history)[id.value], Outcome(err, refused), sha256)]
                || (!historyWorks && history == old(history))
    {
      var ok := Works(historyWorks);
      if id.Some? && ok {
        history := history[id.value := Finished(history[id.value], Outcome(err, refused), sha256)];
      }
    }

    /** At start-up: a row still in progress is a crash. */
    method ReconcileStale() returns (ok: bool)
      requires Fresh()
      modifies this`history
      ensures Fresh() && (historyWorks ==> ok) && (!ok ==> history == old(history))
      ensures ok ==> history.Keys == old(history).Keys && forall id :: id in history ==>
                       if old(history)[id].status == InProgress
                       then history[id] == old(history)[id].(status := Interrupted)
                       else history[id] == old(history)[id]
    {
      ok := Works(historyWorks);
      if ok {
        history := map id | id in history ::
          if history[id].status == InProgress then history[id].(status := Interrupted) else history[id];
      }
    }

    /** The accept callback: policy first, then a place in the inbox. */
    method Accept(m: Manifest) returns (dest: Result<bytes, Verdict>, refused: bool)
      modifies inbox
      ensures refused <==> policy(m).Some?
      ensures dest.Err? ==>
                dest.error == (if refused then policy(m) else Some(storing)) && inbox.files == old(inbox.files)
      ensures inbox.reliable && policy(m).None? && HasPlace(old(inbox.files), m) ==> dest.Ok?
      ensures dest.Ok? ==> !refused && GoodPlace(old(inbox.files), m.name, dest.value)
      ensures dest.Ok? ==> inbox.files == old(inbox.files)[dest.value := []]
    {
      refused := policy(m).Some?;
      if refused {
        return Err(policy(m)), true;
      }
      var made := Works(inbox.reliable);    // MkdirAll
      if !made {
        return Err(Some(storing)), false;
      }
      var name := SafeName.SafeName(m.name);
      var r := inbox.Reserve(name);
      if r.Err? {
        return Err(Some(storing)), false;
      }
      NamedIsSafe(r.value, m.name);
      return Ok(r.value), false;
    }

    /** The verdict a sender gets: the policy's refusal, or that there is no place for the file, or
        yes. */
    ghost function Answer(m: Manifest, dest: Option<bytes>): (v: Verdict)
      ensures dest.None? ==> v.Some?
    {
      if dest.Some? then None else if policy(m).Some? then policy(m) else Some(storing)
    }

    /** Nothing on this side stands in the way of the file. */
    ghost predicate CanTake(m: Manifest, files: map<bytes, bytes>, room: nat) {
      inbox.reliable && policy(m).None? && HasPlace(files, m) && |PrintVerdict(None)| <= room
    }

    /** What Receive does once it has a valid manifest: ask the policy, answer, take the chunks. */
    method TakeDelivery(c: Conn, m: Manifest) returns (err: Option<ReceiveError>, dest: Option<bytes>, refused: bool)
      requires Valid(m)
      modifies inbox, c
      ensures refused <==> policy(m).Some?
      ensures Took(c.written, old(c.written), PrintVerdict(Answer(m, dest)), old(c.room))
      ensures CanTake(m, old(inbox.files), old(c.room)) && Delivers(h, m, old(c.pending), c.ending) ==> err.None?
      ensures dest.None? ==> err == Some(Declined(Answer(m, dest).value)) && inbox.files == old(inbox.files)
      ensures dest.Some? ==>
                && !refused && GoodPlace(old(inbox.files), m.name, dest.value) && dest.value in inbox.files
                && inbox.files == old(inbox.files)[dest.value := inbox.files[dest.value]]
      ensures err.None? ==>
                && dest.Some? && Delivers(h, m, old(c.pending), c.ending)
                && inbox.files[dest.value] == Delivered(h, m, old(c.pending), c.ending)
    {
      var decision;
      decision, refused := Accept(m);
      if decision.Err? {
        var _ := WriteVerdict(c, decision.error);
        return Some(Declined(decision.error.value)), None, refused;
      }
      dest := Some(decision.value);
      var sent := WriteVerdict(c, None);
      if sent.Some? {
        return Some(NoVerdict), dest, refused;
      }
      var reports;
      err, reports := ReceiveChunks(c, inbox, decision.value, h, m);
      Rewritten(old(inbox.files), decision.value, [], inbox.files[decision.value]);
    }

    /** The valid manifest a connection starts with, and the bytes after it. */
    ghost function Offer(c: Conn): Option<(Manifest, bytes)>
      reads c
    {
      match ParseJson(MANIFEST, manifests, c.pending, c.ending)
      case Got(m, rest) => if Valid(m) then Some((m, rest)) else None
      case Bad(_, _) => None
    }

    /** The manifest a connection starts with, valid or not. */
    ghost function Manifested(c: Conn): Option<Manifest>
      reads c
    {
      match ParseJson(MANIFEST, manifests, c.pending, c.ending)
      case Got(m, _) => Some(m)
      case Bad(_, _) => None
    }

    /** What goes back: why the manifest is not valid, or the verdict; nothing when it could not be
        read. */
    ghost function Reply(m: Option<Manifest>, err: Option<ReceiveError>, dest: Option<bytes>): bytes {
      if m.None? then []
      else if Valid(m.value) then PrintVerdict(Answer(m.value, dest))
      else if err.Some? && err.value.BadManifest? then PrintVerdict(Some(explain(err.value.fault)))
      else []
    }

    method DiscardPartial(dest: bytes, ghost before: map<bytes, bytes>)
      requires dest !in before && dest in inbox.files && inbox.files == before[dest := inbox.files[dest]]
      modifies inbox
      ensures inbox.files == before || inbox.files == old(inbox.files)
      ensures inbox.reliable ==> inbox.files == before
    {
      var removed := inbox.Remove(dest);
    }

    /** One inbound transfer from its valid manifest on. */
    method TakeOffer(c: Conn, peer: string, m: Manifest)
      returns (err: Option<ReceiveError>, dest: Option<bytes>, id: Option<nat>)
      requires Fresh() && Valid(m)
      modifies this`history, this`nextId, inbox, c
      ensures Fresh()
      ensures || inbox.files == old(inbox.files)
              || (dest.Some? && dest.value !in old(inbox.files) && dest.value in inbox.files
                  && inbox.files == old(inbox.files)[dest.value := inbox.files[dest.value]])
      ensures dest.Some? ==> GoodPlace(old(inbox.files), m.name, dest.value)
      ensures Took(c.written, old(c.written), PrintVerdict(Answer(m, dest)), old(c.room))
      ensures CanTake(m, old(inbox.files), old(c.room)) && Delivers(h, m, old(c.pending), c.ending) ==> err.None?
      ensures dest.None? ==> err == Some(Declined(Answer(m, dest).value))
      ensures err.None? ==>
                && dest.Some? && policy(m).None?
                && Delivers(h, m, old(c.pending), c.ending)
                && inbox.files == old(inbox.files)[dest.value := Delivered(h, m, old(c.pending), c.ending)]
      ensures err.Some? && inbox.reliable ==> inbox.files == old(inbox.files)
      ensures id.None? ==> history == old(history)
      ensures id.Some? ==>
                && id.value !in old(history) && id.value in history
                && history == old(history)[id.value := history[id.value]]
                && (historyWorks ==> RowTells(history[id.value], peer, m, err, policy(m).Some?))
      ensures hasHistory && historyWorks ==> id.Some?
      ensures id.Some? ==> hasHistory
    {
      id := RecordStart(peer, m.name, m.size);
      var refused;
      err, dest, refused := TakeDelivery(c, m);
      RecordFinish(id, err, refused, if err.None? then m.sha256 else "");
      FinishedTells(peer, m, err, refused);
      if id.Some? {
        OneRow(old(history), id.value, Row(peer, m.name, m.size, "", InProgress), history[id.value]);
      }
      if err.Some? && dest.Some? {
        DiscardPartial(dest.value, old(inbox.files));
      }
    }

    /** One inbound transfer, start to end. */
    method ReceiveBlob(c: Conn, peer: string) returns (err: Option<ReceiveError>, dest: Option<bytes>, id: Option<nat>)
      requires Fresh()
      modifies this`history, this`nextId, inbox, c
      ensures Fresh()
      // nothing that was in the inbox is touched, and at most one file is new, under a safe name
      ensures || inbox.files == old(inbox.files)
              || (dest.Some? && dest.value !in old(inbox.files) && dest.value in inbox.files
                  && inbox.files == old(inbox.files)[dest.value := inbox.files[dest.value]])
      // its name is safe, and the sanitised one itself when that is free
      ensures dest.Some? ==> old(Offer(c)).Some? && GoodPlace(old(inbox.files), old(Offer(c)).value.0.name, dest.value)
      // success: the one new file is the blob the stream carried, for the manifest it offered
      ensures err.None? ==>
                && old(Offer(c)).Some? && dest.Some?
                && var (m, s) := old(Offer(c)).value;
                   && policy(m).None? && Delivers(h, m, s, c.ending)
                   && inbox.files == old(inbox.files)[dest.value := Delivered(h, m, s, c.ending)]
      // and it does succeed when nothing stands in its way
      ensures old(Offer(c)).Some? ==>
                var (m, s) := old(Offer(c)).value;
                CanTake(m, old(inbox.files), old(c.room)) && Delivers(h, m, s, c.ending) ==> err.None?
      // every sender whose manifest could be read is answered, as far as its connection lets it be
      ensures Took(c.written, old(c.written), Reply(old(Manifested(c)), err, dest), old(c.room))
      ensures old(Manifested(c)).Some? && old(Offer(c)).None? ==>
                err.Some? && err.value.BadManifest? && Explains(old(Manifested(c)).value, err.value.fault)
      // failure: nothing is left behind
      ensures err.Some? && inbox.reliable ==> inbox.files == old(inbox.files)
      // history: a row for a valid offer and no other, which tells what happened
      ensures id.None? ==> history == old(history)
      ensures id.Some? ==>
                && old(Offer(c)).Some? && id.value !in old(history) && id.value in history
                && history == old(history)[id.value := history[id.value]]
                && (historyWorks ==>
                      var m := old(Offer(c)).value.0;
                      RowTells(history[id.value], peer, m, err, policy(m).Some?))
      ensures hasHistory && historyWorks ==> (id.Some? <==> old(Offer(c)).Some?)
    {
      var offer := ReadOffer(c, manifests, explain);
      if offer.Err? {
        return Some(offer.error), None, None;
      }
      err, dest, id := TakeOffer(c, peer, offer.value);
    }
  }

  function Outcome(err: Option<ReceiveError>, refused: bool): Status {
    if err.None? then Done else if refused then Status.Refused else Failed
  }

  /** One of the names the file could get is free. */
  ghost predicate HasPlace(files: map<bytes, bytes>, m: Manifest) {
    exists n :: 0 <= n < TRIES && Candidate(BaseName(Sanitised(m.name)), n) !in files
  }

  /** A name in the inbox comes from the offered one by sanitising and numbering alone. */
  ghost predicate NamedAfter(dest: bytes, offered: bytes) {
    exists n :: 0 <= n < TRIES && dest == Candidate(BaseName(Sanitised(offered)), n)
  }

  /** The place of a file: free so far, named after the offer, safe, and under the sanitised name
      itself when that is free. */
  ghost predicate GoodPlace(files: map<bytes, bytes>, offered: bytes, dest: bytes) {
    && dest !in files && NamedAfter(dest, offered) && SafeFile(dest)
    && OwnName(files, Sanitised(offered), dest)
  }

  /** It is safe, whatever was offered. */
  lemma NamedIsSafe(dest: bytes, offered: bytes)
    requires NamedAfter(dest, offered)
    ensures SafeFile(dest)
  {
    var n :| 0 <= n < TRIES && dest == Candidate(BaseName(Sanitised(offered)), n);
    SafeName.SanitisedIsSafe(offered);
    CandidateIsSafe(Sanitised(offered), n);
  }

  /** A finished row is terminal: done exactly on success, refused exactly when policy said no,
      and it carries a hash only when done. */
  ghost predicate RowTells(row: Row, peer: string, m: Manifest, err: Option<ReceiveError>, refused: bool) {
    && row.peer == peer && row.fileName == m.name && row.fileSize == m.size
    && row.status in {Done, Failed, Status.Refused}
    && (row.status == Done <==> err.None?)
    && (row.status == Status.Refused <==> refused)
    && row.sha256 == if row.status == Done then m.sha256 else ""
  }

  lemma OneRow(rows: map<nat, Row>, id: nat, a: Row, b: Row)
    ensures rows[id := a][id := b] == rows[id := b]
  {
  }

  lemma FinishedTells(peer: string, m: Manifest, err: Option<ReceiveError>, refused: bool)
    requires refused ==> err.Some?
    ensures var row := Row(peer, m.name, m.size, "", InProgress);
            RowTells(Finished(row, Outcome(err, refused), if err.None? then m.sha256 else ""), peer, m, err, refused)
  {
  }

  // ----- deadlines

  const VERDICT_TIMEOUT := 15
  const IDLE_TIMEOUT := 60
  const RECEIVE_CEILING := 1800

  /** refreshDeadline: `idle` from now, but never past the ceiling. */
  function Refreshed(now: int, began: int): int {
    if now + IDLE_TIMEOUT > began + RECEIVE_CEILING then began + RECEIVE_CEILING else now + IDLE_TIMEOUT
  }

  /** The deadlines of one transfer: the one for the verdict, then one per progress report. */
  function Deadlines(began: int, reports: seq<int>): seq<int> {
    [began + VERDICT_TIMEOUT] + seq(|reports|, i requires 0 <= i < |reports| => Refreshed(reports[i], began))
  }

  /** Every report leaves the transfer a full minute more, or what is left of its half hour; the
      first deadline is a quarter of a minute after the start. */
  lemma DeadlinesAre(began: int, reports: seq<int>, i: nat)
    requires i <= |reports|
    ensures var d := Deadlines(began, reports)[i];
            if i == 0 then d == began + 15
            else
              && (reports[i - 1] + 60 <= began + 30 * 60 ==> d == reports[i - 1] + 60)
              && (reports[i - 1] + 60 >= began + 30 * 60 ==> d == began + 30 * 60)
  {
    assert i > 0 ==> Deadlines(began, reports)[i] == Refreshed(reports[i - 1], began);
  }

  /** With a clock that does not run backwards, deadlines only move forward and never past the
      ceiling, however long the transfer makes progress. */
  lemma DeadlinesMoveForward(began: int, reports: seq<int>, i: nat, j: nat)
    requires forall k, l :: 0 <= k <= l < |reports| ==> began <= reports[k] <= reports[l]
    requires i <= j <= |reports|
    ensures Deadlines(began, reports)[i] <= Deadlines(began, reports)[j] <= began + RECEIVE_CEILING
  {
    var ds := Deadlines(began, reports);
    assert i > 0 ==> ds[i] == Refreshed(reports[i - 1], began);
    assert j > 0 ==> ds[j] == Refreshed(reports[j - 1], began);
  }
}
