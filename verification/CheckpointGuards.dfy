/** Exactly which checkpoints are taken up again, on the fields of the checkpoint and the file; and what
    happens when the file was rewritten. */
module CheckpointGuards {
  import opened Wrappers
  import opened ByteLines
  import opened CodexTypes
  import opened ContextDict
  import opened Lifecycle
  import opened Chunks
  import opened Checkpoints

  /** The checkpoint was written by this reader, under these limits, for this scope and this file. */
  ghost predicate ForThisReader(p: Policy, scope: string, src: Source, cp: Checkpoint) {
    && cp.agent == Codex && cp.parserVersion == "codex-v3" && cp.nonsemanticPolicy == 1
    && cp.scope == scope && cp.relativePath == scope
    && cp.policy.maxContextBytes == p.maxContextBytes && cp.policy.maxLineBytes == p.maxLineBytes
    && cp.policy.maxNonsemanticBytes == p.maxNonsemanticBytes && cp.policy.maxRecordBytes == p.maxRecordBytes
    && cp.policy.maxRecords == p.maxRecords
    && cp.device == src.device && cp.inode == src.inode
  }

  /** What was read is still there: the file is no shorter than it was, and begins with the bytes read. */
  ghost predicate StillThere(src: Source, cp: Checkpoint) {
    && cp.prefixLength == cp.offset && 0 <= cp.offset <= cp.observedSize <= |src.bytes|
    && cp.prefix <= src.bytes && |cp.prefix| == cp.offset
  }

  /** The saved lifecycle is one the reader can be in. */
  ghost predicate Plausible(p: Policy, cp: Checkpoint) {
    && cp.contexts.Some? && JsonSize(p, cp.contexts.value) <= p.maxContextBytes
    && (cp.discarding == 0 || cp.discarding == 1)
    && (cp.session == "" ==> cp.metaId == "" && cp.contexts.value == [])
    && (cp.discarding == 1 ==> cp.session == "")
    && (cp.session != "" ==>
          && p.IsComponent(cp.session) && p.IsComponent(cp.metaId)
          && forall e :: e in cp.contexts.value ==> PlausibleEntry(p, cp.session, e))
  }

  ghost predicate PlausibleEntry(p: Policy, session: string, e: Entry) {
    && p.IsComponent(e.turn) && e.context.session == session
    && (e.context.blocked ==> e.context.cwd == "" && e.context.model == "")
    && (!e.context.blocked ==> p.checkCwd(e.context.cwd) == Accepted && p.modelSafe(e.context.model))
  }

  ghost predicate Resumable(p: Policy, scope: string, src: Source, cp: Checkpoint) {
    ForThisReader(p, scope, src, cp) && StillThere(src, cp) && Plausible(p, cp)
  }

  lemma CompatibleIs(p: Policy, scope: string, src: Source, cp: Checkpoint)
    ensures Compatible(p, scope, src, cp) && src.bytes[..cp.prefixLength] == cp.prefix
            <==> ForThisReader(p, scope, src, cp) && StillThere(src, cp)
  {
  }

  lemma LifecycleIs(p: Policy, session: string, metaId: string, contexts: Dict)
    ensures ValidLifecycle(p, session, metaId, contexts) <==>
      && (session == "" ==> metaId == "" && contexts == [])
      && (session != "" ==>
            && p.IsComponent(session) && p.IsComponent(metaId)
            && forall e :: e in contexts ==> PlausibleEntry(p, session, e))
  {
    hide Policy.IsComponent;
    if session != "" && ValidLifecycle(p, session, metaId, contexts) {
      forall e | e in contexts
        ensures PlausibleEntry(p, session, e)
      {
        var k :| 0 <= k < |contexts| && contexts[k] == e;
        assert ValidEntry(p, session, contexts[k]);
      }
    }
    if session != "" && forall e :: e in contexts ==> PlausibleEntry(p, session, e) {
      forall k | 0 <= k < |contexts|
        ensures ValidEntry(p, session, contexts[k])
      {
        assert contexts[k] in contexts;
      }
    }
  }

  /** A checkpoint is taken up exactly when it is resumable, and then with its own offset and lifecycle;
      every other one restarts at the beginning with a warning. */
  lemma ResumesExactlyWhen(p: Policy, scope: string, src: Source, cp: Checkpoint)
    ensures Resumable(p, scope, src, cp) ==>
              && cp.contexts.Some?
              && ResumeState(p, scope, src, Some(cp))
                 == Resumption(cp.offset, State(cp.session, cp.metaId, cp.discarding == 1, cp.contexts.value), multiset{})
    ensures !Resumable(p, scope, src, cp) ==>
              ResumeState(p, scope, src, Some(cp)) == Resumption(0, State("", "", false, []), multiset{SourceRestarted})
  {
    CompatibleIs(p, scope, src, cp);
    if cp.contexts.Some? {
      LifecycleIs(p, cp.session, cp.metaId, cp.contexts.value);
    }
    hide ForThisReader, ValidLifecycle, JsonSize, PlausibleEntry, Policy.IsComponent, DigestOf;
  }

  /** So a read warns of a restart exactly when the checkpoint is not resumable, and then it is a first
      read from byte 0: the same records, the same next checkpoint, and one more warning. */
  lemma RestartedReadIsFirstRead(p: Policy, scope: string, src: Source, cp: Checkpoint)
    requires Decoded(cp) && !Resumable(p, scope, src, cp)
    ensures
      var again, first := ReadIncremental(p, scope, src, Some(cp)), ReadIncremental(p, scope, src, None);
      && again.records == first.records && again.next == first.next
      && again.warnings == first.warnings + multiset{SourceRestarted}
  {
    ResumesExactlyWhen(p, scope, src, cp);
    hide ParseChunk, Resumable, Save, Slice;
    assert ResumeState(p, scope, src, None) == Resumption(0, State("", "", false, []), multiset{});
  }

  /** The file was rewritten below the offset, cut short, or replaced. */
  ghost predicate Rewritten(cp: Checkpoint, src: Source) {
    || src.device != cp.device || src.inode != cp.inode
    || |src.bytes| < cp.observedSize
    || (exists i :: 0 <= i < |cp.prefix| && i < |src.bytes| && src.bytes[i] != cp.prefix[i])
  }

  /** Whatever the checkpoint is: after a rewrite it is never taken up. */
  lemma RewrittenRestarts(p: Policy, scope: string, src: Source, cp: Checkpoint)
    requires Decoded(cp) && Rewritten(cp, src)
    ensures
      var again, first := ReadIncremental(p, scope, src, Some(cp)), ReadIncremental(p, scope, src, None);
      && again.records == first.records && again.next == first.next
      && again.warnings == first.warnings + multiset{SourceRestarted}
  {
    assert !Resumable(p, scope, src, cp) by {
      hide Plausible;
    }
    RestartedReadIsFirstRead(p, scope, src, cp);
  }

  /** The reader's own checkpoint restarts on another version of the file exactly when that version was
      rewritten below what was seen. */
  lemma OwnRestartsExactlyWhen(p: Policy, scope: string, src: Source, later: Source, offset: nat, st: State)
    requires offset <= |src.bytes| && Sound(p, st)
    ensures ResumeState(p, scope, later, Some(Save(p, scope, src, offset, st))).warnings == multiset{SourceRestarted}
       <==> Rewritten(Save(p, scope, src, offset, st), later)
  {
    var cp := Save(p, scope, src, offset, st);
    SavedCheckpointAccepted(p, scope, src, src, offset, st);
    ResumesExactlyWhen(p, scope, src, cp);
    ResumesExactlyWhen(p, scope, later, cp);
    hide Plausible, ResumeState, Canonical, Sound, DigestOf;
    assert multiset{SourceRestarted} != multiset{} by {
      assert multiset{SourceRestarted}[SourceRestarted] == 1;
    }
    assert Resumable(p, scope, src, cp);
    if !Rewritten(cp, later) {
      assert forall i :: 0 <= i < |cp.prefix| ==> later.bytes[i] == cp.prefix[i];
      assert cp.prefix <= later.bytes;
    }
  }
}
