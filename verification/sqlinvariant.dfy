/** The invariant of the coherence protocol holds in every interleaving: readers, writers and the gate. */
module SqlInvariant {
  import opened Wrappers
  import opened MemoryCaching
  import opened SqlCoherence
  import opened SqlSteps

  lemma CachesKeptByInsert<K(!new), V(!new), I(!new)>(
    s: State<K, V, I>, capacity: nat, r: nat, ttl: Option<nat>, s': State<K, V, I>)
    requires 0 < capacity && WellFormed(s.cache, capacity) && WellFormed(s.indexes, capacity)
    requires ReaderOf(s, r).Inserting? && s' == AfterInsert(s, capacity, r, ttl)
    ensures WellFormed(s'.cache, capacity) && WellFormed(s'.indexes, capacity)
  {
    var seen := ReaderOf(s, r).seen;
    if ttl.None? {
    } else if seen.RowSeen? {
      InsertWellFormed(s.cache, capacity, seen.key, Entry(seen.row, s.now + ttl.value));
    } else {
      InsertWellFormed(s.indexes, capacity, seen.index, Entry(KeyOf(seen.answer), s.now + ttl.value));
    }
  }

  lemma CachesKeptByRead<K(!new), V(!new), I(!new)>(s: State<K, V, I>, capacity: nat, e: Event<K, V, I>)
    requires 0 < capacity && WellFormed(s.cache, capacity) && WellFormed(s.indexes, capacity)
    requires Enabled(s, e) && ByReader(e)
    ensures WellFormed(AfterRead(s, capacity, e).cache, capacity)
    ensures WellFormed(AfterRead(s, capacity, e).indexes, capacity)
  {
    if e.Insert? {
      CachesKeptByInsert(s, capacity, e.r, e.ttl, AfterRead(s, capacity, e));
    } else if e.InsertRow? {
      var reader := ReaderOf(s, e.r);
      InsertWellFormed(s.cache, capacity, reader.key, Entry(Some(reader.value), s.now + e.lifetime));
    }
  }

  lemma CachesKeptByWrite<K(!new), V(!new), I(!new)>(s: State<K, V, I>, capacity: nat, e: Event<K, V, I>)
    requires WellFormed(s.cache, capacity) && WellFormed(s.indexes, capacity)
    requires Enabled(s, e) && ByWriter(e)
    ensures WellFormed(AfterWrite(s, e).cache, capacity)
    ensures WellFormed(AfterWrite(s, e).indexes, capacity)
  {
    if e.PurgeRow? {
      DropWellFormed(s.cache, e.key, capacity);
    } else if e.Sweep? {
      DropAllWellFormed(s.indexes, PointingInto(s.indexes, s.writers[e.w].primaries), capacity);
    } else if e.PurgeIndex? {
      DropWellFormed(s.indexes, StageOf(s, e.w).rest[0], capacity);
    }
  }

  lemma CachesKept<K(!new), V(!new), I(!new)>(s: State<K, V, I>, capacity: nat, e: Event<K, V, I>)
    requires 0 < capacity && Inv(s, capacity) && Enabled(s, e)
    ensures WellFormed(Next(s, capacity, e).cache, capacity)
    ensures WellFormed(Next(s, capacity, e).indexes, capacity)
  {
    if ByReader(e) {
      CachesKeptByRead(s, capacity, e);
    } else if ByWriter(e) {
      CachesKeptByWrite(s, capacity, e);
    } else if e.GetRow? {
      GetWellFormed(s.cache, e.key, s.now, capacity);
    } else if e.GetIndex? {
      GetWellFormed(s.indexes, e.index, s.now, capacity);
    }
  }

  /** Nobody touches the gate while another task holds it. */
  lemma GateKept<K(!new), V(!new), I(!new)>(s: State<K, V, I>, capacity: nat, e: Event<K, V, I>)
    requires Enabled(s, e)
    requires ByReader(e) ==> ReaderOk(s, e.r)
    requires ByWriter(e) ==> WriterOk(s, e.w)
    ensures var gate := Next(s, capacity, e).gate;
      || gate == s.gate
      || (s.gate.Free? && ByReader(e) && gate == HeldByReader(e.r))
      || (s.gate.Free? && ByWriter(e) && gate == HeldByWriter(e.w))
      || (gate.Free? && ByReader(e) && s.gate == HeldByReader(e.r))
      || (gate.Free? && ByWriter(e) && s.gate == HeldByWriter(e.w))
  {
  }

  lemma SteppingWriterOk<K(!new), V(!new), I(!new)>(s: State<K, V, I>, e: Event<K, V, I>)
    requires Enabled(s, e) && ByWriter(e) && WriterOk(s, e.w)
    ensures WriterOk(AfterWrite(s, e), e.w)
  {
  }

  lemma WriterKept<K(!new), V(!new), I(!new)>(s: State<K, V, I>, capacity: nat, e: Event<K, V, I>, w: nat)
    requires Enabled(s, e) && WriterOk(s, w)
    requires ByReader(e) ==> ReaderOk(s, e.r)
    requires ByWriter(e) ==> WriterOk(s, e.w)
    ensures WriterOk(Next(s, capacity, e), w)
  {
    if ByReader(e) {
      GateKept(s, capacity, e);
    } else if ByWriter(e) {
      if e.w == w {
        SteppingWriterOk(s, e);
      } else {
        GateKept(s, capacity, e);
      }
    }
  }

  lemma ReaderKept<K(!new), V(!new), I(!new)>(s: State<K, V, I>, capacity: nat, e: Event<K, V, I>, r: nat)
    requires 0 < capacity && Inv(s, capacity) && Enabled(s, e)
    ensures ReaderOk(Next(s, capacity, e), r)
  {
    assert ReaderOk(s, r);
    if ByReader(e) {
      if e.r == r {
        StepperOk(s, capacity, e);
      } else {
        assert ReaderOk(s, e.r);
        IdleReaderKept(s, capacity, e, r);
      }
    } else {
      if ByWriter(e) {
        assert WriterOk(s, e.w);
      }
      IdleReaderKept(s, capacity, e, r);
    }
  }

  /** A reader that is not stepping keeps what it holds, and a bump outdates it. */
  lemma IdleReaderKept<K(!new), V(!new), I(!new)>(s: State<K, V, I>, capacity: nat, e: Event<K, V, I>, r: nat)
    requires Enabled(s, e) && ReaderOk(s, r)
    requires ByReader(e) ==> e.r != r && ReaderOk(s, e.r)
    requires ByWriter(e) ==> WriterOk(s, e.w)
    ensures ReaderOk(Next(s, capacity, e), r)
  {
    var reader := ReaderOf(s, r);
    DatabaseKept(s, capacity, e);
    GateKept(s, capacity, e);
    assert ReaderOf(Next(s, capacity, e), r) == reader;
    if !e.Bump? {
      if reader.Queried? && reader.generation == s.generation {
        SeenStaysFresh(s, capacity, e, reader.seen);
      } else if reader.Inserting? {
        SeenStaysFresh(s, capacity, e, reader.seen);
      } else if reader.HalfDone? {
        RowStaysFresh(s, capacity, e, reader.key, Some(reader.value));
      }
    }
  }

  lemma StepperOk<K(!new), V(!new), I(!new)>(s: State<K, V, I>, capacity: nat, e: Event<K, V, I>)
    requires Enabled(s, e) && ByReader(e) && ReaderOk(s, e.r)
    ensures ReaderOk(Next(s, capacity, e), e.r)
  {
    var reader, s' := ReaderOf(s, e.r), Next(s, capacity, e);
    if e.Query? {
      assert SeenFresh(s', Look(s', reader.target));
      assert Look(s', reader.target) == Look(s, reader.target);
    } else if e.TakeGate? && reader.generation == s.generation {
      SeenStaysFresh(s, capacity, e, reader.seen);
    } else if e.Insert? && e.ttl.Some? && reader.seen.AnswerSeen? && reader.seen.answer.Some? {
      RowStaysFresh(s, capacity, e, reader.seen.answer.value.0, Some(reader.seen.answer.value.1));
    }
  }

  lemma StepKeeps<K(!new), V(!new), I(!new)>(s: State<K, V, I>, capacity: nat, e: Event<K, V, I>)
    requires 0 < capacity && Inv(s, capacity) && Enabled(s, e)
    ensures Inv(Next(s, capacity, e), capacity)
  {
    var s' := Next(s, capacity, e);
    CachesKept(s, capacity, e);
    forall k ensures RowOk(s', k) {
      RowKept(s, capacity, e, k);
    }
    forall i ensures IndexOk(s', i) {
      IndexKept(s, capacity, e, i);
    }
    forall r ensures ReaderOk(s', r) {
      ReaderKept(s, capacity, e, r);
    }
    forall w ensures WriterOk(s', w) {
      assert WriterOk(s, w);
      if ByReader(e) {
        assert ReaderOk(s, e.r);
      }
      if ByWriter(e) {
        assert WriterOk(s, e.w);
      }
      WriterKept(s, capacity, e, w);
    }
  }

  lemma {:induction false} EveryInterleavingKeepsInv<K(!new), V(!new), I(!new)>(
    start: State<K, V, I>, capacity: nat, events: seq<Event<K, V, I>>)
    requires 0 < capacity && start == Start(start.rows, start.mapping) && Legal(start, capacity, events)
    ensures Inv(After(start, capacity, events), capacity)
  {
    if events != [] {
      EveryInterleavingKeepsInv(start, capacity, events[..|events| - 1]);
      StepKeeps(After(start, capacity, events[..|events| - 1]), capacity, events[|events| - 1]);
    }
  }
}
