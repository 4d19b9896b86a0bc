/**
 `SessionTracker` on the heap: log entries are objects, merged in place and
 passed on by reference.  The state is tied to the value functions of
 Session.dfy, and a record that was emitted is never written to again.
 */
module SessionTrackers {
  import opened Prelude
  import opened Session

  class TelemetryLog {
    var RequestID: nat
    var Timestamp: int
    var Version: string
    var OriginalHash: string
    var RedactedPayload: string
    var RedactedHash: string
    var RedactionLevel: string
    var PIICategoriesFound: seq<string>
    var ExtractorUsed: string
    var FieldsScanned: nat
    var CaptureComplete: bool
    var ResponseRedactedPayload: string
    var ResponseHash: string
    var ResponsePIICategories: seq<string>
    var ResponseCaptureComplete: bool
    var ResponseExtractorUsed: string

    ghost function View(): Log
      reads this
    {
      Log(RequestID, Timestamp, Version, RedactionLevel, FieldsScanned,
          RequestSide(OriginalHash, RedactedPayload, RedactedHash, PIICategoriesFound, ExtractorUsed, CaptureComplete),
          ResponseSide(ResponseRedactedPayload, ResponseHash, ResponsePIICategories,
                       ResponseCaptureComplete, ResponseExtractorUsed))
    }

    /** `mergeResponse`, with `this` as the destination. */
    method MergeResponse(src: TelemetryLog)
      requires src != this
      modifies `ResponseRedactedPayload, `ResponseHash, `ResponsePIICategories
      modifies `ResponseCaptureComplete, `ResponseExtractorUsed
      ensures View() == Merge(old(View()), old(src.View()))
    {
      ghost var d, s := View().response, src.View().response;
      if src.ResponseRedactedPayload != "" {
        ResponseRedactedPayload := src.ResponseRedactedPayload;
      }
      if src.ResponseHash != "" {
        ResponseHash := src.ResponseHash;
      }
      assert ResponseRedactedPayload == if s.payload != "" then s.payload else d.payload;
      if |src.ResponsePIICategories| > 0 {
        ResponsePIICategories := src.ResponsePIICategories;
      }
      assert ResponseHash == if s.hash != "" then s.hash else d.hash;
      if src.ResponseCaptureComplete {
        ResponseCaptureComplete := src.ResponseCaptureComplete;
      }
      if src.ResponseExtractorUsed != "" {
        ResponseExtractorUsed := src.ResponseExtractorUsed;
      }
    }
  }

  /** The collector's input channel; `msgs` are the records when they were sent. */
  class LogQueue {
    const cap: nat
    var ch: seq<TelemetryLog>
    ghost var msgs: seq<Log>

    constructor (cap: nat)
      ensures this.cap == cap && ch == [] && msgs == []
    {
      this.cap := cap;
      ch, msgs := [], [];
    }

    /** Nobody has written to a record since it was sent. */
    ghost predicate Intact()
      reads this, ch
    {
      |msgs| == |ch| && forall i | 0 <= i < |ch| :: ch[i].View() == msgs[i]
    }
  }

  /** What a channel with `n` of `cap` places taken accepts of the records offered to it. */
  function Accepted(cap: nat, n: nat, offered: seq<Log>): seq<Log> {
    if n + |offered| <= cap then offered else if n < cap then offered[..cap - n] else []
  }

  lemma AcceptedMore(cap: nat, n: nat, offered: seq<Log>, more: seq<Log>)
    ensures Accepted(cap, n, offered + more)
            == Accepted(cap, n, offered) + Accepted(cap, n + |Accepted(cap, n, offered)|, more)
  {
  }

  datatype Entry = Entry(log: TelemetryLog, createdAt: int, ghost v: Log)

  ghost function Values(m: map<nat, Entry>): map<nat, Held> {
    map r | r in m :: Held(m[r].v, m[r].createdAt)
  }

  lemma ValuesUpdate(m: map<nat, Entry>, r: nat, e: Entry)
    ensures Values(m[r := e]) == Values(m)[r := Held(e.v, e.createdAt)]
  {
  }

  lemma ValuesRemove(m: map<nat, Entry>, r: nat)
    ensures Values(m - {r}) == Values(m) - {r}
  {
  }

  class SessionTracker {
    const output: LogQueue
    const ttl: int
    const bidir: bool
    var sessions: map<nat, Entry>
    ghost var attempts: seq<Log>

    constructor (output: LogQueue, ttl: int, bidir: bool)
      requires output.Intact()
      ensures this.output == output && this.ttl == ttl && this.bidir == bidir
      ensures Valid() && View() == EMPTY
    {
      this.output, this.ttl, this.bidir := output, ttl, bidir;
      sessions, attempts := map[], [];
    }

    ghost function Logs(): set<TelemetryLog>
      reads this
    {
      set r | r in sessions :: sessions[r].log
    }

    ghost function View(): Tracker
      reads this
    {
      Tracker(Values(sessions), attempts)
    }

    /** A held entry is filed under its own id, has the value it had, and was not sent on. */
    ghost predicate Sound(r: nat)
      requires r in sessions
      reads this, Logs(), output
    {
      var e := sessions[r];
      e.log in Logs() && e.v.rid == r && e.log.View() == e.v && e.log !in output.ch
    }

    ghost predicate Valid()
      reads this, Logs(), output, output.ch
    {
      output.Intact() && forall r | r in sessions :: Sound(r)
    }

    /** A log entry that a worker has just made. */
    ghost predicate New(entry: TelemetryLog)
      reads this, output
    {
      entry !in Logs() && entry !in output.ch
    }

    /** `emit`: what is sent is never written to again; a full channel loses the record. */
    method EmitLog(entry: TelemetryLog)
      requires Valid() && New(entry)
      modifies this`attempts, output
      ensures Valid() && View() == Emit(old(View()), entry.View())
      ensures output.msgs == old(output.msgs) + if old(|output.ch|) < output.cap then [entry.View()] else []
      ensures attempts == old(attempts) + [entry.View()]
    {
      if |output.ch| < output.cap {
        output.ch := output.ch + [entry];
        output.msgs := output.msgs + [entry.View()];
      }
      attempts := attempts + [entry.View()];
      assert forall r | r in sessions :: old(Sound(r));
    }

    method Store(entry: TelemetryLog, now: int)
      requires Valid() && New(entry) && entry.RequestID !in sessions
      modifies this`sessions
      ensures Valid() && View() == Hold(old(View()), entry.View(), now)
    {
      assert forall r | r in sessions :: Sound(r);
      ValuesUpdate(sessions, entry.RequestID, Entry(entry, now, entry.View()));
      sessions := sessions[entry.RequestID := Entry(entry, now, entry.View())];
      forall r | r in sessions ensures Sound(r) {
        if r != entry.RequestID { assert old(Sound(r)); }
      }
    }

    method Delete(rid: nat)
      requires Valid() && rid in sessions
      modifies this`sessions
      ensures Valid() && View() == Release(old(View()), rid) && New(old(sessions)[rid].log)
      ensures sessions == old(sessions) - {rid}
    {
      assert Sound(rid);
      ValuesRemove(sessions, rid);
      sessions := sessions - {rid};
      forall r | r in sessions ensures Sound(r) { assert old(Sound(r)); }
    }

    /** Merging the second side into an entry of its own. */
    method MergeInto(dst: TelemetryLog, src: TelemetryLog)
      requires Valid() && New(dst) && src != dst
      modifies dst
      ensures Valid() && New(dst) && dst.View() == Merge(old(dst.View()), old(src.View()))
    {
      dst.MergeResponse(src);
      forall r | r in sessions ensures Sound(r) { assert old(Sound(r)); }
    }

    method SubmitRequest(entry: TelemetryLog, now: int)
      requires Valid() && New(entry)
      modifies this, output, entry
      ensures Valid()
      ensures View() == Session.SubmitRequest(bidir, old(View()), old(entry.View()), now)
      ensures old(attempts) <= attempts
      ensures output.msgs == old(output.msgs) + Accepted(output.cap, old(|output.ch|), attempts[|old(attempts)|..])
    {
      if !bidir {
        EmitLog(entry);
        return;
      }
      var rid := entry.RequestID;
      if rid in sessions {
        assert Sound(rid);
        MergeInto(entry, sessions[rid].log);
        EmitLog(entry);
        Delete(rid);
      } else {
        Store(entry, now);
      }
    }

    method SubmitResponse(entry: TelemetryLog, now: int)
      requires Valid() && New(entry)
      modifies this, output
      modifies if entry.RequestID in sessions then {sessions[entry.RequestID].log} else {}
      ensures Valid()
      ensures View() == Session.SubmitResponse(old(View()), entry.View(), now)
      ensures old(attempts) <= attempts
      ensures output.msgs == old(output.msgs) + Accepted(output.cap, old(|output.ch|), attempts[|old(attempts)|..])
    {
      var rid := entry.RequestID;
      if rid in sessions {
        assert Sound(rid);
        var log := sessions[rid].log;
        Delete(rid);
        MergeInto(log, entry);
        EmitLog(log);
      } else {
        Store(entry, now);
      }
    }

    method Evict(rid: nat)
      requires Valid() && rid in sessions
      modifies this, output
      ensures Valid() && View() == Visit(old(View()), rid, true)
      ensures sessions == old(sessions) - {rid} && old(attempts) <= attempts
      ensures output.msgs == old(output.msgs) + Accepted(output.cap, old(|output.ch|), attempts[|old(attempts)|..])
    {
      assert Sound(rid);
      var log := sessions[rid].log;
      Delete(rid);
      EmitLog(log);
    }

    /** One eviction of a sweep that began with `sent` in the channel and `tried` attempts. */
    method EvictNext(rid: nat, ghost sent: seq<Log>, ghost tried: seq<Log>)
      requires Valid() && rid in sessions && tried <= attempts
      requires output.msgs == sent + Accepted(output.cap, |sent|, attempts[|tried|..])
      modifies this, output
      ensures Valid() && View() == Visit(old(View()), rid, true) && sessions == old(sessions) - {rid}
      ensures tried <= attempts && output.msgs == sent + Accepted(output.cap, |sent|, attempts[|tried|..])
    {
      ghost var before, had := attempts, output.msgs;
      Evict(rid);
      AcceptedMore(output.cap, |sent|, before[|tried|..], attempts[|before|..]);
      assert attempts[|tried|..] == before[|tried|..] + attempts[|before|..];
    }

    /** `sweep`: every key is visited, exactly the expired sessions go. */
    method SweepExpired(now: int) returns (ghost order: seq<nat>)
      requires Valid()
      modifies this, output
      ensures Valid() && View() == Sweep(ttl, old(View()), now, order)
      ensures Covers(old(View()), Ticker(now, order))
      ensures forall r :: !Expired(ttl, View(), r, now)
      ensures old(attempts) <= attempts
      ensures output.msgs == old(output.msgs) + Accepted(output.cap, old(|output.ch|), attempts[|old(attempts)|..])
    {
      var todo := sessions.Keys;
      order := [];
      ghost var before := View();
      while todo != {}
        invariant Valid() && Sweeping(ttl, before, View(), now, order, todo) && old(attempts) <= attempts
        invariant output.msgs == old(output.msgs) + Accepted(output.cap, |old(output.msgs)|, attempts[|old(attempts)|..])
        decreases todo
      {
        var id :| id in todo;
        SweepingNext(ttl, before, View(), now, order, todo, id);
        todo, order := todo - {id}, order + [id];
        if now - sessions[id].createdAt > ttl {
          EvictNext(id, old(output.msgs), old(attempts));
        }
      }
    }

    /** The final sweep: everything held is emitted. */
    method FinalSweep() returns (ghost order: seq<nat>)
      requires Valid()
      modifies this, output
      ensures Valid() && View() == Flush(old(View()), order)
      ensures sessions == map[] && Covers(old(View()), Stop(order))
      ensures old(attempts) <= attempts
      ensures output.msgs == old(output.msgs) + Accepted(output.cap, old(|output.ch|), attempts[|old(attempts)|..])
    {
      order := [];
      ghost var before := View();
      while sessions != map[]
        invariant Valid() && Flushing(before, View(), order) && old(attempts) <= attempts
        invariant output.msgs == old(output.msgs) + Accepted(output.cap, |old(output.msgs)|, attempts[|old(attempts)|..])
        decreases sessions.Keys
      {
        var id :| id in sessions;
        FlushingNext(before, View(), order, id);
        EvictNext(id, old(output.msgs), old(attempts));
        order := order + [id];
      }
    }
  }
}
