/** The store of the oblivious function's client: what is finalised is what was
    blinded.

    A `Uint8Array` is a window onto an array of bytes, and several can share
    one. `blindOprf` copies what the windows of its caller show, hands the
    copies to the native call, and keeps them beside the object it returns, in
    a map only it and `finalizeOprf` read. The heap here is the real one: the
    caller's arrays and the kept ones are objects, and the claim is that no
    sequence of calls and of writes by the caller changes a kept byte.
  */
module OprfStore {
  type Byte = b: int | 0 <= b < 0x100

  /** A `Uint8Array`. */
  datatype View = View(buffer: array<Byte>, offset: nat, length: nat)

  ghost predicate InBounds(v: View) { v.offset + v.length <= v.buffer.Length }

  /** The bytes a window shows. */
  ghost function Bytes(v: View): seq<Byte>
    requires InBounds(v)
    reads v.buffer
  {
    v.buffer[v.offset..v.offset + v.length]
  }

  /** `input.slice().buffer`: a new array of the window's own bytes. */
  method CopyOut(v: View) returns (copy: array<Byte>)
    requires InBounds(v)
    ensures fresh(copy) && copy[..] == Bytes(v)
  {
    copy := new Byte[v.length](i requires 0 <= i < v.length && InBounds(v) reads v.buffer => v.buffer[v.offset + i]);
  }

  /** `toArrayBuffer`: a window that is the whole of its array goes as it is, any
      other as a copy of what it shows. Either way the native side is handed the
      window's bytes and no others. */
  method ToArrayBuffer(v: View) returns (buffer: array<Byte>)
    requires InBounds(v)
    ensures buffer[..] == Bytes(v)
    ensures buffer == v.buffer || fresh(buffer)
    ensures buffer == v.buffer <==> v.offset == 0 && v.length == v.buffer.Length
  {
    if v.offset == 0 && v.length == v.buffer.Length {
      buffer := v.buffer;
    } else {
      buffer := CopyOut(v);
    }
  }

  /** What the native side answers a blinding with, and a finalisation. */
  datatype Native<T> = Answers(value: T) | Fails

  datatype Blinded = Blinded(elements: seq<seq<Byte>>, states: seq<seq<Byte>>)

  datatype Result<T> = Ok(value: T) | Rejected

  /** What the native finalisation is handed, as bytes. */
  datatype Handed = Handed(inputs: seq<seq<Byte>>, states: seq<seq<Byte>>, evaluation: seq<seq<Byte>>, proof: seq<Byte>, key: seq<Byte>)

  /** The frozen object a product holds: all it can reach through it are the
      blinded elements. */
  class Blinding {
    const blindedElements: seq<array<Byte>>

    constructor (elements: seq<array<Byte>>)
      ensures blindedElements == elements
    {
      blindedElements := elements;
    }
  }

  datatype Kept = Kept(inputs: seq<array<Byte>>, clientStates: seq<array<Byte>>)

  /** The bytes of some arrays. */
  ghost predicate Hold(arrays: seq<array<Byte>>, contents: seq<seq<Byte>>)
    reads arrays
  {
    |arrays| == |contents| && forall i :: 0 <= i < |arrays| ==> arrays[i][..] == contents[i]
  }

  /** New arrays with given bytes, as the native side returns them. */
  method Allocate(contents: seq<seq<Byte>>) returns (arrays: seq<array<Byte>>)
    ensures Hold(arrays, contents)
    ensures forall i :: 0 <= i < |arrays| ==> fresh(arrays[i])
    ensures forall i, j :: 0 <= i < j < |arrays| ==> arrays[i] != arrays[j]
  {
    arrays := [];
    for n := 0 to |contents|
      invariant |arrays| == n && Hold(arrays, contents[..n])
      invariant forall i :: 0 <= i < n ==> fresh(arrays[i])
      invariant forall i, j :: 0 <= i < j < n ==> arrays[i] != arrays[j]
    {
      var bytes := contents[n];
      var a := new Byte[|bytes|](i requires 0 <= i < |bytes| => bytes[i]);
      assert a[..] == bytes;
      arrays := arrays + [a];
    }
    assert contents[..|contents|] == contents;
  }

  ghost predicate AllInBounds(views: seq<View>)
  {
    forall i :: 0 <= i < |views| ==> InBounds(views[i])
  }

  ghost function Buffers(views: seq<View>): set<array<Byte>>
  {
    set i | 0 <= i < |views| :: views[i].buffer
  }

  /** What some windows show. */
  ghost function AllBytes(views: seq<View>): (contents: seq<seq<Byte>>)
    requires AllInBounds(views)
    reads Buffers(views)
    ensures |contents| == |views|
  {
    seq(|views|, i requires 0 <= i < |views| && InBounds(views[i]) reads Buffers(views) => Bytes(views[i]))
  }

  method CopyAll(views: seq<View>) returns (copies: seq<array<Byte>>)
    requires AllInBounds(views)
    ensures Hold(copies, AllBytes(views))
    ensures forall i :: 0 <= i < |copies| ==> fresh(copies[i])
  {
    copies := [];
    for n := 0 to |views|
      invariant |copies| == n && Hold(copies, AllBytes(views)[..n])
      invariant forall i :: 0 <= i < n ==> fresh(copies[i])
    {
      var copy := CopyOut(views[n]);
      copies := copies + [copy];
    }
  }

  /** `map(toArrayBuffer)`, read by the native side during the call. */
  method BuffersOf(views: seq<View>) returns (contents: seq<seq<Byte>>)
    requires AllInBounds(views)
    ensures contents == old(AllBytes(views))
  {
    contents := [];
    for n := 0 to |views|
      invariant contents == old(AllBytes(views))[..n]
    {
      var buffer := ToArrayBuffer(views[n]);
      contents := contents + [buffer[..]];
    }
  }

  /** The store: `KEPT`, and the two calls that use it. */
  class Store {
    var kept: map<Blinding, Kept>

    constructor ()
      ensures kept == map[]
    {
      kept := map[];
    }

    /** The end of `blindOprf`, when the native call settles. `copies` are the
        arrays it was handed. The product is given none of what is kept. */
    method Settle(copies: seq<array<Byte>>, native: Native<Blinded>) returns (r: Result<Blinding>)
      modifies this
      ensures native.Fails? <==> r.Rejected?
      ensures r.Rejected? ==> kept == old(kept)
      ensures r.Ok? ==> fresh(r.value) && r.value in kept && kept == old(kept)[r.value := kept[r.value]]
      ensures r.Ok? ==> kept[r.value].inputs == copies && Hold(kept[r.value].clientStates, native.value.states)
      ensures r.Ok? ==> forall i :: 0 <= i < |kept[r.value].clientStates| ==> fresh(kept[r.value].clientStates[i])
      ensures r.Ok? ==> forall i :: 0 <= i < |kept[r.value].clientStates| ==> kept[r.value].clientStates[i] !in r.value.blindedElements
      ensures r.Ok? ==> Hold(r.value.blindedElements, native.value.elements)
      ensures r.Ok? ==> forall i :: 0 <= i < |r.value.blindedElements| ==> fresh(r.value.blindedElements[i])
      ensures r.Ok? ==> forall i, j :: 0 <= i < j < |r.value.blindedElements| ==> r.value.blindedElements[i] != r.value.blindedElements[j]
    {
      match native {
        case Fails => return Rejected;
        case Answers(blinded) =>
          var states := Allocate(blinded.states);
          var elements := Allocate(blinded.elements);
          var blinding := new Blinding(elements);
          kept := kept[blinding := Kept(copies, states)];
          r := Ok(blinding);
      }
    }

    /** `finalizeOprf`: an object the store does not know is rejected before the
        native call; for one it knows, the call is handed what was kept. */
    method Finalize(blinding: Blinding, evaluation: seq<View>, proof: View, key: View) returns (r: Result<Handed>)
      requires AllInBounds(evaluation) && InBounds(proof) && InBounds(key)
      ensures r.Rejected? <==> blinding !in kept
      ensures r.Ok? ==>
        && Hold(kept[blinding].inputs, r.value.inputs) && Hold(kept[blinding].clientStates, r.value.states)
        && r.value.evaluation == old(AllBytes(evaluation)) && r.value.proof == old(Bytes(proof)) && r.value.key == old(Bytes(key))
    {
      if blinding !in kept {
        return Rejected;
      }
      var inputs := ReadAll(kept[blinding].inputs);
      var states := ReadAll(kept[blinding].clientStates);
      var elements := BuffersOf(evaluation);
      var proofBuffer := ToArrayBuffer(proof);
      var keyBuffer := ToArrayBuffer(key);
      r := Ok(Handed(inputs, states, elements, proofBuffer[..], keyBuffer[..]));
    }
  }

  /** What the native side reads of the arrays it is handed. */
  method ReadAll(arrays: seq<array<Byte>>) returns (contents: seq<seq<Byte>>)
    ensures Hold(arrays, contents)
  {
    contents := [];
    for n := 0 to |arrays|
      invariant |contents| == n && Hold(arrays[..n], contents)
    {
      contents := contents + [arrays[n][..]];
    }
    assert arrays[..|arrays|] == arrays;
  }
}
