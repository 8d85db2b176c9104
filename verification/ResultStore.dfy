/** The create-only result store. Documents are keyed by URI; a fault is an error the backend reports
    either without having written or after having written. */
module ResultStore {
  import opened Text
  import opened Contracts
  import opened ResultLayout

  type Docs = map<string, AttemptResult>

  datatype Fault = NoFault | FaultBefore | FaultAfter

  datatype WriteReply = Created | Exists | StoreError

  datatype ReadReply = Absent | Present(doc: AttemptResult) | ReadError

  /** `writeJSONCreateOnly` and the conditional S3 put. */
  function CreateOnly(docs: Docs, uri: string, doc: AttemptResult, fault: Fault): (r: (Docs, WriteReply))
    ensures forall u :: u in docs ==> u in r.0 && r.0[u] == docs[u]
    ensures r.1.Created? ==> uri !in docs && uri in r.0 && r.0[uri] == doc
    ensures r.1.Exists? ==> uri in docs && r.0 == docs
  {
    if fault.FaultBefore? then (docs, StoreError)
    else if uri in docs then (docs, Exists)
    else (docs[uri := doc], if fault.FaultAfter? then StoreError else Created)
  }

  function WriteAttempt(docs: Docs, run: BundleRun, result: AttemptResult, fault: Fault): (r: (Docs, WriteReply))
    ensures forall u :: u in docs ==> u in r.0 && r.0[u] == docs[u]
    ensures r.1.Created? ==> result.childID >= 0 && AttemptURI(run, result.childID, result.attemptID) in r.0
    ensures r.1.Created? ==> r.0[AttemptURI(run, result.childID, result.attemptID)] == result
  {
    if result.childID < 0 || !result.Valid(run) then (docs, StoreError)
    else CreateOnly(docs, AttemptURI(run, result.childID, result.attemptID), result, fault)
  }

  function CommitTerminal(docs: Docs, run: BundleRun, result: AttemptResult, fault: Fault): (r: (Docs, WriteReply))
    ensures forall u :: u in docs ==> u in r.0 && r.0[u] == docs[u]
    ensures r.1.Created? ==> result.childID >= 0 && TerminalURI(run, result.childID) !in docs
    ensures r.1.Created? ==> TerminalURI(run, result.childID) in r.0 && r.0[TerminalURI(run, result.childID)] == result
    ensures r.1.Exists? ==> result.childID >= 0 && TerminalURI(run, result.childID) in docs && r.0 == docs
  {
    if result.childID < 0 || !result.Valid(run) || !result.terminal ||
      result.resultURI != TerminalURI(run, result.childID)
    then (docs, StoreError)
    else CreateOnly(docs, TerminalURI(run, result.childID), result, fault)
  }

  /** A document that does not decode to a valid terminal result is an error, not an absence. */
  function ReadTerminal(docs: Docs, run: BundleRun, child: int, fault: Fault): ReadReply {
    if !fault.NoFault? || !run.Valid() || !run.children.Contains(child) then ReadError
    else
      var uri := TerminalURI(run, child);
      if uri !in docs then Absent
      else if docs[uri].Valid(run) && docs[uri].terminal then Present(docs[uri])
      else ReadError
  }

  /** A read answers that there is no document exactly when it was made without error, for a child of a valid run,
      and nothing is stored; it answers with a document exactly when that is the stored one and it validates. */
  lemma ReadIff(docs: Docs, run: BundleRun, child: int, fault: Fault, doc: AttemptResult)
    ensures ReadTerminal(docs, run, child, fault) == Absent <==>
      fault.NoFault? && run.Valid() && run.children.Contains(child) && TerminalURI(run, child) !in docs
    ensures ReadTerminal(docs, run, child, fault) == Present(doc) <==>
      && fault.NoFault? && run.Valid() && run.children.Contains(child)
      && TerminalURI(run, child) in docs && docs[TerminalURI(run, child)] == doc && doc.Valid(run) && doc.terminal
  {
  }

  lemma CreatesIff(docs: Docs, uri: string, doc: AttemptResult, fault: Fault)
    ensures
      var (after, reply) := CreateOnly(docs, uri, doc, fault);
      && (reply.Created? <==> fault.NoFault? && uri !in docs)
      && (reply.Exists? <==> !fault.FaultBefore? && uri in docs)
      && after == if !fault.FaultBefore? && uri !in docs then docs[uri := doc] else docs
  {
  }

  /** A record is written exactly when it validates, its place is free and the store does not fail before; the reply
      says so exactly when the store does not fail at all, and says that the place is taken exactly when it is. */
  lemma AttemptWrittenIff(docs: Docs, run: BundleRun, r: AttemptResult, fault: Fault)
    ensures
      var (after, reply) := WriteAttempt(docs, run, r, fault);
      if r.childID < 0 || !r.Valid(run) then after == docs && reply == StoreError
      else
        var uri := AttemptURI(run, r.childID, r.attemptID);
        && (reply.Created? <==> fault.NoFault? && uri !in docs)
        && (reply.Exists? <==> !fault.FaultBefore? && uri in docs)
        && after == if !fault.FaultBefore? && uri !in docs then docs[uri := r] else docs
  {
    if r.childID >= 0 { CreatesIff(docs, AttemptURI(run, r.childID, r.attemptID), r, fault); }
  }

  /** So is a terminal document, which besides must be terminal and name its own place. */
  lemma TerminalWrittenIff(docs: Docs, run: BundleRun, r: AttemptResult, fault: Fault)
    ensures
      var (after, reply) := CommitTerminal(docs, run, r, fault);
      if r.childID < 0 || !r.Valid(run) || !r.terminal || r.resultURI != TerminalURI(run, r.childID)
      then after == docs && reply == StoreError
      else
        var uri := TerminalURI(run, r.childID);
        && (reply.Created? <==> fault.NoFault? && uri !in docs)
        && (reply.Exists? <==> !fault.FaultBefore? && uri in docs)
        && after == if !fault.FaultBefore? && uri !in docs then docs[uri := r] else docs
  {
    if r.childID >= 0 { CreatesIff(docs, TerminalURI(run, r.childID), r, fault); }
  }

  class Store {
    var docs: Docs

    constructor (docs: Docs)
      ensures this.docs == docs
    {
      this.docs := docs;
    }

    method TerminalResult(run: BundleRun, child: int, fault: Fault) returns (r: ReadReply)
      ensures r == ReadTerminal(docs, run, child, fault)
    {
      if !fault.NoFault? || !run.Valid() || !run.children.Contains(child) {
        return ReadError;
      }
      var uri := TerminalURI(run, child);
      if uri !in docs {
        return Absent;
      }
      var result := docs[uri];
      if !result.Valid(run) || !result.terminal {
        return ReadError;
      }
      return Present(result);
    }

    method WriteJSONCreateOnly(uri: string, doc: AttemptResult, fault: Fault) returns (r: WriteReply)
      modifies this
      ensures (docs, r) == CreateOnly(old(docs), uri, doc, fault)
    {
      if fault.FaultBefore? {
        return StoreError;
      }
      if uri in docs {
        return Exists;
      }
      docs := docs[uri := doc];
      r := if fault.FaultAfter? then StoreError else Created;
    }

    method WriteAttemptResult(run: BundleRun, result: AttemptResult, fault: Fault) returns (r: WriteReply)
      modifies this
      ensures (docs, r) == WriteAttempt(old(docs), run, result, fault)
    {
      if result.childID < 0 || !result.Valid(run) {
        return StoreError;
      }
      r := WriteJSONCreateOnly(AttemptURI(run, result.childID, result.attemptID), result, fault);
    }

    method CommitTerminalResult(run: BundleRun, result: AttemptResult, fault: Fault) returns (r: WriteReply)
      modifies this
      ensures (docs, r) == CommitTerminal(old(docs), run, result, fault)
    {
      if result.childID < 0 || !result.Valid(run) || !result.terminal {
        return StoreError;
      }
      if result.resultURI != TerminalURI(run, result.childID) {
        return StoreError;
      }
      r := WriteJSONCreateOnly(TerminalURI(run, result.childID), result, fault);
    }
  }
}
