/** Any sequence of what a product does with the oblivious function's client:
    it makes arrays, writes to any array it can reach whenever it likes, starts
    blindings, and finalises. The session runs over real arrays that may be
    shared; the model beside it has no arrays at all, only bytes, so nothing in
    it can be reached from two places. They come to the same.
  */
module OprfSession {
  import opened Options
  import opened OprfStore

  /** A window onto the product's array number `which`. */
  datatype Window = Window(which: nat, offset: nat, length: nat)

  datatype Op =
    | NewArray(bytes: seq<Byte>)
    | Write(which: nat, at: nat, value: Byte)
    | Begin(inputs: seq<Window>)
    | End(call: nat, native: Native<Blinded>)
    | Finalize(blinding: nat, evaluation: seq<Window>, proof: Window, key: Window)

  // ---- the model, on bytes alone ----

  datatype Snapshot = Snapshot(inputs: seq<seq<Byte>>, states: seq<seq<Byte>>)

  /** The product's arrays, the blindings outstanding, those that settled, and
      what each finalisation was handed. */
  datatype Model = Model(memory: seq<seq<Byte>>, calls: seq<Option<seq<seq<Byte>>>>, blinded: seq<Snapshot>, handed: seq<Result<Handed>>)

  predicate Fits(memory: seq<seq<Byte>>, w: Window)
  {
    w.which < |memory| && w.offset + w.length <= |memory[w.which]|
  }

  predicate AllFit(memory: seq<seq<Byte>>, ws: seq<Window>)
  {
    forall i :: 0 <= i < |ws| ==> Fits(memory, ws[i])
  }

  function Shown(memory: seq<seq<Byte>>, w: Window): seq<Byte>
    requires Fits(memory, w)
  {
    memory[w.which][w.offset..w.offset + w.length]
  }

  function AllShown(memory: seq<seq<Byte>>, ws: seq<Window>): (contents: seq<seq<Byte>>)
    requires AllFit(memory, ws)
    ensures |contents| == |ws|
  {
    seq(|ws|, i requires 0 <= i < |ws| => Shown(memory, ws[i]))
  }

  function Written(memory: seq<seq<Byte>>, which: nat, at: nat, value: Byte): seq<seq<Byte>>
    requires which < |memory| && at < |memory[which]|
  {
    var before := memory[which];
    memory[which := before[..at] + [value] + before[at + 1..]]
  }

  /** One step. A blinding remembers the bytes its windows showed when it began;
      a finalisation is handed what its own blinding remembers. An operation
      that names nothing there is does nothing. */
  function Next(m: Model, op: Op): Model
  {
    match op
    case NewArray(bytes) => m.(memory := m.memory + [bytes])
    case Write(which, at, value) =>
      if which < |m.memory| && at < |m.memory[which]| then m.(memory := Written(m.memory, which, at, value)) else m
    case Begin(inputs) =>
      if AllFit(m.memory, inputs) then m.(calls := m.calls + [Some(AllShown(m.memory, inputs))]) else m
    case End(call, native) =>
      if call < |m.calls| && m.calls[call].Some? then
        var settled := m.(calls := m.calls[call := None]);
        if native.Answers? then
          settled.(memory := m.memory + native.value.elements,
                   blinded := m.blinded + [Snapshot(m.calls[call].value, native.value.states)])
        else settled
      else m
    case Finalize(blinding, evaluation, proof, key) =>
      if AllFit(m.memory, evaluation) && Fits(m.memory, proof) && Fits(m.memory, key) then
        m.(handed := m.handed + [HandedFor(m, blinding, AllShown(m.memory, evaluation), Shown(m.memory, proof), Shown(m.memory, key))])
      else m
  }

  /** What a finalisation whose windows fit is handed. */
  function HandedFor(m: Model, blinding: nat, evaluation: seq<seq<Byte>>, proof: seq<Byte>, key: seq<Byte>): Result<Handed>
  {
    if blinding < |m.blinded| then Ok(Handed(m.blinded[blinding].inputs, m.blinded[blinding].states, evaluation, proof, key))
    else Rejected
  }

  const START := Model([], [], [], [])

  function After(ops: seq<Op>): Model
  {
    if ops == [] then START else Next(After(ops[..|ops| - 1]), ops[|ops| - 1])
  }

  // ---- the session, on real arrays ----

  class Session {
    const store: Store
    var arrays: seq<array<Byte>>
    var calls: seq<Option<seq<array<Byte>>>>
    var blindings: seq<Blinding>
    var handed: seq<Result<Handed>>
    /** Every array the library keeps. */
    ghost var hidden: set<array<Byte>>

    /** Some arrays are among those kept, and hold some bytes. */
    ghost predicate Keeps(kept: seq<array<Byte>>, contents: seq<seq<Byte>>)
      reads this, hidden
    {
      |kept| == |contents| && forall i :: 0 <= i < |kept| ==> kept[i] in hidden && kept[i][..] == contents[i]
    }

    /** The product's arrays are different arrays, and none of them is kept. */
    ghost predicate Public(memory: seq<seq<Byte>>)
      reads this, arrays
    {
      && Hold(arrays, memory)
      && (forall i :: 0 <= i < |arrays| ==> arrays[i] !in hidden)
      && (forall i, j :: 0 <= i < j < |arrays| ==> arrays[i] != arrays[j])
    }

    ghost predicate Outstanding(m: Model)
      reads this, hidden
    {
      && |calls| == |m.calls|
      && forall c :: 0 <= c < |calls| ==>
           if m.calls[c].Some? then calls[c].Some? && Keeps(calls[c].value, m.calls[c].value) else calls[c].None?
    }

    ghost predicate Settled(m: Model)
      reads this, store, hidden
    {
      && |blindings| == |m.blinded|
      && store.kept.Keys == (set b | b in blindings)
      && forall k :: 0 <= k < |blindings| ==>
           && blindings[k] in store.kept
           && Keeps(store.kept[blindings[k]].inputs, m.blinded[k].inputs)
           && Keeps(store.kept[blindings[k]].clientStates, m.blinded[k].states)
    }

    /** The session is where the model is. */
    ghost predicate Matches(m: Model)
      reads this, store, arrays, hidden
    {
      Public(m.memory) && Outstanding(m) && Settled(m) && handed == m.handed
    }

    constructor ()
      ensures fresh(store) && Matches(START)
    {
      store := new Store();
      arrays, calls, blindings, handed, hidden := [], [], [], [], {};
    }

    method NewArray(bytes: seq<Byte>, ghost m: Model)
      requires Matches(m)
      modifies this
      ensures Matches(Next(m, Op.NewArray(bytes)))
      ensures forall i :: 0 <= i < |arrays| ==> arrays[i] in old(arrays) || fresh(arrays[i])
    {
      var a := Allocate([bytes]);
      arrays := arrays + a;
    }

    method Write(which: nat, at: nat, value: Byte, ghost m: Model)
      requires Matches(m)
      modifies arrays
      ensures Matches(Next(m, Op.Write(which, at, value)))
      ensures forall i :: 0 <= i < |arrays| ==> arrays[i] in old(arrays) || fresh(arrays[i])
    {
      if which < |arrays| && at < arrays[which].Length {
        arrays[which][at] := value;
        assert arrays[which][..] == Written(m.memory, which, at, value)[which];
      }
    }

    /** One of the product's windows, when it fits its array. */
    method ViewOf(w: Window, ghost m: Model) returns (view: Option<View>)
      requires Public(m.memory)
      ensures view.Some? <==> Fits(m.memory, w)
      ensures view.Some? ==> InBounds(view.value) && Bytes(view.value) == Shown(m.memory, w)
    {
      if w.which < |arrays| && w.offset + w.length <= arrays[w.which].Length {
        view := Some(View(arrays[w.which], w.offset, w.length));
        assert Bytes(view.value) == arrays[w.which][..][w.offset..w.offset + w.length];
      } else {
        view := None;
      }
    }

    method Views(ws: seq<Window>, ghost m: Model) returns (fit: bool, views: seq<View>)
      requires Public(m.memory)
      ensures fit <==> AllFit(m.memory, ws)
      ensures fit ==> AllInBounds(views) && AllBytes(views) == AllShown(m.memory, ws)
    {
      views := [];
      for n := 0 to |ws|
        invariant |views| == n && AllInBounds(views)
        invariant forall i :: 0 <= i < n ==> Fits(m.memory, ws[i]) && Bytes(views[i]) == Shown(m.memory, ws[i])
      {
        var view := ViewOf(ws[n], m);
        match view {
          case None => return false, [];
          case Some(v) => views := views + [v];
        }
      }
      fit := true;
    }

    /** More arrays are kept, none of them the product's. */
    method Hide(kept: seq<array<Byte>>, ghost m: Model)
      requires Public(m.memory) && Outstanding(m) && forall i :: 0 <= i < |kept| ==> kept[i] !in arrays
      modifies this`hidden
      ensures Public(m.memory) && Outstanding(m)
      ensures hidden == old(hidden) + set a | a in kept
    {
      hidden := hidden + set a | a in kept;
    }

    /** The copies of a blinding that begins are kept from now on. */
    method Enlist(copies: seq<array<Byte>>, ghost contents: seq<seq<Byte>>, ghost m: Model)
      requires Matches(m) && Keeps(copies, contents)
      modifies this`calls
      ensures Matches(m.(calls := m.calls + [Some(contents)]))
    {
      calls := calls + [Some(copies)];
    }

    method Begin(inputs: seq<Window>, ghost m: Model)
      requires Matches(m)
      modifies this
      ensures Matches(Next(m, Op.Begin(inputs))) && arrays == old(arrays)
    {
      var fit, views := Views(inputs, m);
      if fit {
        var copies := CopyAll(views);
        Hide(copies, m);
        assert Settled(m);
        Enlist(copies, AllShown(m.memory, inputs), m);
      }
    }

    /** A call that settled is no longer outstanding. */
    method Forget(call: nat, ghost m: Model)
      requires Matches(m) && call < |calls|
      modifies this`calls
      ensures Matches(m.(calls := m.calls[call := None])) && calls == old(calls)[call := None]
    {
      calls := calls[call := None];
      ghost var after := m.(calls := m.calls[call := None]);
      assert Public(after.memory) && Settled(after);
    }

    /** The product is handed a blinding: its elements' arrays are the product's
        from now on, and its states are kept. */
    method Admit(copies: seq<array<Byte>>, native: Native<Blinded>, ghost contents: seq<seq<Byte>>, ghost m: Model)
      requires Matches(m) && Keeps(copies, contents) && native.Answers?
      modifies this, store
      ensures Matches(m.(memory := m.memory + native.value.elements,
                         blinded := m.blinded + [Snapshot(contents, native.value.states)]))
      ensures forall i :: 0 <= i < |arrays| ==> arrays[i] in old(arrays) || fresh(arrays[i])
    {
      var r := store.Settle(copies, native);
      var blinding := r.value;
      var states := store.kept[blinding].clientStates;
      Hide(states, m);
      Record(blinding, contents, native.value.states, m);
      Publish(blinding.blindedElements, native.value.elements, m.(blinded := m.blinded + [Snapshot(contents, native.value.states)]));
    }

    /** The store knows one blinding more. */
    method Record(blinding: Blinding, ghost contents: seq<seq<Byte>>, ghost states: seq<seq<Byte>>, ghost m: Model)
      requires Public(m.memory) && Outstanding(m) && handed == m.handed
      requires blinding in store.kept && blinding !in blindings
      requires store.kept.Keys == (set b | b in blindings) + {blinding}
      requires |blindings| == |m.blinded| && forall k :: 0 <= k < |blindings| ==>
        && Keeps(store.kept[blindings[k]].inputs, m.blinded[k].inputs)
        && Keeps(store.kept[blindings[k]].clientStates, m.blinded[k].states)
      requires Keeps(store.kept[blinding].inputs, contents) && Keeps(store.kept[blinding].clientStates, states)
      modifies this`blindings
      ensures Matches(m.(blinded := m.blinded + [Snapshot(contents, states)]))
    {
      blindings := blindings + [blinding];
    }

    method Publish(elements: seq<array<Byte>>, ghost contents: seq<seq<Byte>>, ghost m: Model)
      requires Matches(m) && Hold(elements, contents)
      requires forall i :: 0 <= i < |elements| ==> elements[i] !in hidden && elements[i] !in arrays
      requires forall i, j :: 0 <= i < j < |elements| ==> elements[i] != elements[j]
      modifies this`arrays
      ensures Matches(m.(memory := m.memory + contents)) && arrays == old(arrays) + elements
    {
      arrays := arrays + elements;
    }

    method End(call: nat, native: Native<Blinded>, ghost m: Model)
      requires Matches(m)
      modifies this, store
      ensures Matches(Next(m, Op.End(call, native)))
      ensures forall i :: 0 <= i < |arrays| ==> arrays[i] in old(arrays) || fresh(arrays[i])
    {
      if call < |calls| && calls[call].Some? {
        var copies := calls[call].value;
        Forget(call, m);
        if native.Answers? {
          Admit(copies, native, m.calls[call].value, m.(calls := m.calls[call := None]));
        }
      }
    }

    /** A call that names a blinding: one the store settled, or an object it
        never returned. */
    method CallStore(blinding: nat, elements: seq<View>, proof: View, key: View,
                     ghost es: seq<seq<Byte>>, ghost p: seq<Byte>, ghost k: seq<Byte>, ghost m: Model) returns (r: Result<Handed>)
      requires Matches(m) && AllInBounds(elements) && InBounds(proof) && InBounds(key)
      requires AllBytes(elements) == es && Bytes(proof) == p && Bytes(key) == k
      ensures r == HandedFor(m, blinding, es, p, k)
    {
      if blinding < |blindings| {
        var given := blindings[blinding];
        r := store.Finalize(given, elements, proof, key);
        SameContents(store.kept[given].inputs, r.value.inputs, m.blinded[blinding].inputs);
        SameContents(store.kept[given].clientStates, r.value.states, m.blinded[blinding].states);
      } else {
        var forged := new Blinding([]);
        r := store.Finalize(forged, elements, proof, key);
      }
    }

    method Note(r: Result<Handed>, ghost m: Model)
      requires Matches(m)
      modifies this`handed
      ensures Matches(m.(handed := m.handed + [r]))
    {
      handed := handed + [r];
    }

    method Finalize(blinding: nat, evaluation: seq<Window>, proof: Window, key: Window, ghost m: Model)
      requires Matches(m)
      modifies this`handed
      ensures Matches(Next(m, Op.Finalize(blinding, evaluation, proof, key)))
    {
      var proofView := ViewOf(proof, m);
      var keyView := ViewOf(key, m);
      var fit, elements := Views(evaluation, m);
      if fit && proofView.Some? && keyView.Some? {
        var r := CallStore(blinding, elements, proofView.value, keyView.value,
                           AllShown(m.memory, evaluation), Shown(m.memory, proof), Shown(m.memory, key), m);
        Note(r, m);
      }
    }

    lemma SameContents(arrays: seq<array<Byte>>, a: seq<seq<Byte>>, b: seq<seq<Byte>>)
      requires Hold(arrays, a) && Keeps(arrays, b)
      ensures a == b
    {}

    method Do(op: Op, ghost m: Model)
      requires Matches(m)
      modifies this, store, arrays
      ensures Matches(Next(m, op))
      ensures forall i :: 0 <= i < |arrays| ==> arrays[i] in old(arrays) || fresh(arrays[i])
    {
      match op
      case NewArray(bytes) => NewArray(bytes, m);
      case Write(which, at, value) => Write(which, at, value, m);
      case Begin(inputs) => Begin(inputs, m);
      case End(call, native) => End(call, native, m);
      case Finalize(blinding, evaluation, proof, key) => Finalize(blinding, evaluation, proof, key, m);
    }
  }

  /** Whatever the product does, and in whatever order, every finalisation is
      handed what the model says. */
  method RunSession(ops: seq<Op>) returns (handed: seq<Result<Handed>>)
    ensures handed == After(ops).handed
  {
    var session := new Session();
    for n := 0 to |ops|
      invariant session.Matches(After(ops[..n]))
      invariant fresh(session) && fresh(session.store) && forall i :: 0 <= i < |session.arrays| ==> fresh(session.arrays[i])
    {
      assert ops[..n + 1][..n] == ops[..n];
      session.Do(ops[n], After(ops[..n]));
    }
    assert ops[..|ops|] == ops;
    handed := session.handed;
  }

  // ---- what is finalised is what was blinded ----

  /** The state before the last operation, and the prefixes of both. */
  lemma Unfold(ops: seq<Op>)
    requires ops != []
    ensures var n := |ops| - 1;
      && After(ops) == Next(After(ops[..n]), ops[n])
      && forall b :: 0 <= b <= n ==> ops[..n][..b] == ops[..b]
  {}

  // ---- what a window shows ----

  /** Operation `i` put `value` at a place: it wrote it, or it made the array. */
  predicate Puts(ops: seq<Op>, i: nat, which: nat, at: nat, value: Byte)
    requires i < |ops|
  {
    var m := After(ops[..i]);
    match ops[i]
    case NewArray(bytes) => which == |m.memory| && at < |bytes| && bytes[at] == value
    case Write(w, a, v) => w == which < |m.memory| && a == at < |m.memory[which]| && v == value
    case End(call, native) =>
      && call < |m.calls| && m.calls[call].Some? && native.Answers?
      && var n := which - |m.memory|;
         0 <= n < |native.value.elements| && at < |native.value.elements[n]| && native.value.elements[n][at] == value
    case _ => false
  }

  predicate WritesAt(op: Op, which: nat, at: nat) { op.Write? && op.which == which && op.at == at }

  /** Operation `i` is the last to put anything at a place. */
  ghost predicate LastPut(ops: seq<Op>, i: nat, which: nat, at: nat, value: Byte)
  {
    && i < |ops| && Puts(ops, i, which, at, value)
    && forall j :: i < j < |ops| ==> !WritesAt(ops[j], which, at)
  }

  lemma StaysPut(ops: seq<Op>, i: nat, which: nat, at: nat, value: Byte)
    requires ops != [] && LastPut(ops[..|ops| - 1], i, which, at, value) && !WritesAt(ops[|ops| - 1], which, at)
    ensures LastPut(ops, i, which, at, value)
  {
    assert ops[..|ops| - 1][..i] == ops[..i];
  }

  lemma PutNow(ops: seq<Op>, which: nat, at: nat)
    requires ops != [] && which < |After(ops).memory| && at < |After(ops).memory[which]|
    requires which >= |After(ops[..|ops| - 1]).memory| || WritesAt(ops[|ops| - 1], which, at)
    ensures LastPut(ops, |ops| - 1, which, at, After(ops).memory[which][at])
  {}

  /** What is at a place is what was put there last. */
  lemma {:induction false} ByteComesFrom(ops: seq<Op>, which: nat, at: nat) returns (i: nat)
    requires which < |After(ops).memory| && at < |After(ops).memory[which]|
    ensures LastPut(ops, i, which, at, After(ops).memory[which][at])
  {
    var n := |ops| - 1;
    var m := After(ops[..n]);
    if which >= |m.memory| || WritesAt(ops[n], which, at) {
      PutNow(ops, which, at);
      i := n;
    } else {
      Untouched(m, ops[n], which, at);
      i := ByteComesFrom(ops[..n], which, at);
      StaysPut(ops, i, which, at, m.memory[which][at]);
    }
  }

  lemma Untouched(m: Model, op: Op, which: nat, at: nat)
    requires which < |m.memory| && !WritesAt(op, which, at)
    ensures which < |Next(m, op).memory| && |Next(m, op).memory[which]| == |m.memory[which]|
    ensures at < |m.memory[which]| ==> Next(m, op).memory[which][at] == m.memory[which][at]
  {}

  /** What a window shows is what was last put in its array, from its offset on. */
  lemma ShowsWhatWasPut(ops: seq<Op>, w: Window, k: nat) returns (i: nat)
    requires Fits(After(ops).memory, w) && k < w.length
    ensures |Shown(After(ops).memory, w)| == w.length
    ensures LastPut(ops, i, w.which, w.offset + k, Shown(After(ops).memory, w)[k])
  {
    i := ByteComesFrom(ops, w.which, w.offset + k);
  }

  /** What an outstanding call holds is what its windows showed when it began;
      the call begun after `c` others is call `c`. */
  lemma {:induction false} WhatWasBegun(ops: seq<Op>, c: nat) returns (b: nat)
    requires c < |After(ops).calls| && After(ops).calls[c].Some?
    ensures b < |ops| && ops[b].Begin? && AllFit(After(ops[..b]).memory, ops[b].inputs)
    ensures c == |After(ops[..b]).calls| && After(ops).calls[c].value == AllShown(After(ops[..b]).memory, ops[b].inputs)
  {
    var n := |ops| - 1;
    Unfold(ops);
    if c < |After(ops[..n]).calls| {
      b := WhatWasBegun(ops[..n], c);
    } else {
      b := n;
    }
  }

  /** What a blinding holds is what the product's windows showed when it began,
      whatever was written since, and the states its own native call answered:
      the call that was begun at `b` is the one that ended at `e`, as the end that
      made blinding `k`. */
  lemma {:induction false} WhatWasBlinded(ops: seq<Op>, k: nat) returns (b: nat, e: nat)
    requires k < |After(ops).blinded|
    ensures b < e < |ops| && ops[b].Begin? && AllFit(After(ops[..b]).memory, ops[b].inputs)
    ensures ops[e].End? && ops[e].native.Answers?
    ensures ops[e].call == |After(ops[..b]).calls| && k == |After(ops[..e]).blinded|
    ensures After(ops).blinded[k] == Snapshot(AllShown(After(ops[..b]).memory, ops[b].inputs), ops[e].native.value.states)
  {
    var n := |ops| - 1;
    Unfold(ops);
    if k < |After(ops[..n]).blinded| {
      b, e := WhatWasBlinded(ops[..n], k);
    } else {
      b := WhatWasBegun(ops[..n], ops[n].call);
      e := n;
    }
  }

  lemma {:induction false} StaysSettled(ops: seq<Op>, n: nat, c: nat)
    requires n <= |ops| && c < |After(ops[..n]).calls| && After(ops[..n]).calls[c].None?
    ensures c < |After(ops).calls| && After(ops).calls[c].None?
  {
    if n < |ops| {
      Unfold(ops);
      StaysSettled(ops[..|ops| - 1], n, c);
    } else {
      assert ops[..n] == ops;
    }
  }

  lemma EndOf(m: Model, op: Op)
    requires op.End? && op.call < |m.calls|
    ensures op.call < |Next(m, op).calls| && Next(m, op).calls[op.call].None?
    ensures m.calls[op.call].None? ==> Next(m, op) == m
  {}

  /** A call settles once: an end that names a call already ended does nothing. */
  lemma SettlesOnce(ops: seq<Op>, e: nat, f: nat)
    requires e < f < |ops| && ops[e].End? && ops[f].End? && ops[e].call == ops[f].call
    requires ops[e].call < |After(ops[..e]).calls|
    ensures After(ops[..f + 1]) == After(ops[..f])
  {
    EndOf(After(ops[..e]), ops[e]);
    AfterOne(ops, e);
    assert ops[..f][..e + 1] == ops[..e + 1];
    StaysSettled(ops[..f], e + 1, ops[e].call);
    EndOf(After(ops[..f]), ops[f]);
    AfterOne(ops, f);
  }

  lemma AfterOne(ops: seq<Op>, n: nat)
    requires n < |ops|
    ensures After(ops[..n + 1]) == Next(After(ops[..n]), ops[n])
  {
    assert ops[..n + 1][..n] == ops[..n];
  }

  /** So a finalisation is handed, byte for byte, the inputs of its own blinding
      as they stood when that was asked for, with the states its own call answered,
      whatever else was blinded, and with what its own windows show now; an object
      the store never returned is rejected. */
  lemma FinalisedIsBlinded(ops: seq<Op>, blinding: nat, evaluation: seq<Window>, proof: Window, key: Window) returns (b: nat, e: nat)
    requires var m := After(ops); AllFit(m.memory, evaluation) && Fits(m.memory, proof) && Fits(m.memory, key)
    ensures var m, handed := After(ops), After(ops + [Op.Finalize(blinding, evaluation, proof, key)]).handed;
      && handed != [] && handed[..|handed| - 1] == m.handed
      && var last := handed[|handed| - 1];
         if blinding >= |m.blinded| then last == Rejected
         else
           && last.Ok? && b < e < |ops| && ops[b].Begin? && ops[e].End? && ops[e].native.Answers?
           && ops[e].call == |After(ops[..b]).calls| && blinding == |After(ops[..e]).blinded|
           && AllFit(After(ops[..b]).memory, ops[b].inputs)
           && last.value.inputs == AllShown(After(ops[..b]).memory, ops[b].inputs)
           && last.value.states == ops[e].native.value.states
           && last.value.evaluation == AllShown(m.memory, evaluation)
           && last.value.proof == Shown(m.memory, proof) && last.value.key == Shown(m.memory, key)
  {
    var op := Op.Finalize(blinding, evaluation, proof, key);
    Unfold(ops + [op]);
    assert (ops + [op])[..|ops|] == ops;
    b, e := 0, 0;
    if blinding < |After(ops).blinded| {
      b, e := WhatWasBlinded(ops, blinding);
    }
  }
}
