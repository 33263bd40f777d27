/** `ArgumentHeap`: a shader-visible descriptor heap with one slot per
    descriptor, and the `name -> index` map copied from the shader. Binding a
    name writes one descriptor into that name's slot. The heap's contents are an
    array of slot values; the CPU handle of each write is computed as the source
    does. */
module Arguments {
  import opened Ints
  import opened Wrappers
  import opened Resources
  import opened Ownership

  /** What a descriptor slot holds. */
  datatype Descriptor =
    | Unwritten
    | UavView(resource: ResourceId, uav: UavDescription)
    | CbvView(resource: ResourceId, bufferLocation: nat, sizeInBytes: uint32)

  /** `DX_ASSERT(_var2index.count(var), "")` failing. */
  datatype ArgumentError = UnknownVariable(name: string)

  /** `desc.NumDescriptors = _var2index.size()`, as written. */
  function NumDescriptorsAsWritten(var2index: map<string, int>): (n: nat)
    ensures n == |var2index.Keys|
  {
    |var2index|
  }

  class ArgumentHeap {
    const var2index: map<string, int>
    const slots: array<Descriptor>
    /** `GetCPUDescriptorHandleForHeapStart().ptr`. */
    const heapStart: nat
    /** `GetDescriptorHandleIncrementSize(CBV_SRV_UAV)`. */
    const increment: uint32
    /** `_device`: the handle that keeps the device alive while the heap exists. */
    const deviceHandle: DxPtr

    /** Every name's slot lies inside the heap. */
    ghost predicate Valid()
      reads this
    {
      forall name :: InHeap(name)
    }

    /** The slot of `name`, if it is declared, lies inside the heap: writing
        through a handle past the heap's end is undefined. */
    ghost predicate InHeap(name: string)
      reads this
    {
      name in var2index ==> 0 <= var2index[name] < slots.Length
    }

    /** The CPU descriptor handle of slot `index`: `h.ptr += _increment * index`,
        where the product is computed in 32-bit unsigned arithmetic. */
    function SlotHandle(index: int): (h: nat)
      reads this
      ensures heapStart <= h < heapStart + TWO_TO_THE_32
    {
      heapStart + ToUint32(increment as int * index) as int
    }

    /** `ArgumentHeap(device, var2index)` as written: a heap of
        `_var2index.size()` unwritten slots, whatever indices the map holds.
        The borrowed device pointer gets an explicit `AddRef`, is wrapped by
        `DxPtr(device)` without another, and that temporary is assigned to
        `_device` and destroyed: the device ends with exactly one more
        reference, held by `_device`. */
    constructor (var2index: map<string, int>, heapStart: nat, increment: uint32, device: RefCounted)
      requires device.Valid() && !device.deleted
      modifies device
      ensures fresh(slots) && slots.Length == NumDescriptorsAsWritten(var2index)
      ensures forall k :: 0 <= k < slots.Length ==> slots[k] == Unwritten
      ensures this.var2index == var2index && this.heapStart == heapStart && this.increment == increment
      ensures deviceHandle.ptr == device && deviceHandle.Valid() && fresh(deviceHandle)
      ensures device.refCount == old(device.refCount) + 1
      ensures device.holders == old(device.holders) + {deviceHandle} && device.unowned == old(device.unowned)
    {
      this.var2index := var2index;
      slots := new Descriptor[|var2index|](_ => Unwritten);
      this.heapStart := heapStart;
      this.increment := increment;
      var member := HoldDevice(device);
      deviceHandle := member;
    }

    /** The same heap with `numDescriptors` slots, enough for every index the
        map holds. */
    constructor Sized(var2index: map<string, int>, numDescriptors: nat, heapStart: nat, increment: uint32, device: RefCounted)
      requires forall name :: name in var2index ==> 0 <= var2index[name] < numDescriptors
      requires device.Valid() && !device.deleted
      modifies device
      ensures Valid() && fresh(slots) && slots.Length == numDescriptors
      ensures forall k :: 0 <= k < slots.Length ==> slots[k] == Unwritten
      ensures this.var2index == var2index && this.heapStart == heapStart && this.increment == increment
      ensures deviceHandle.ptr == device && deviceHandle.Valid() && fresh(deviceHandle)
      ensures device.refCount == old(device.refCount) + 1
      ensures device.holders == old(device.holders) + {deviceHandle} && device.unowned == old(device.unowned)
    {
      this.var2index := var2index;
      slots := new Descriptor[numDescriptors](_ => Unwritten);
      this.heapStart := heapStart;
      this.increment := increment;
      var member := HoldDevice(device);
      deviceHandle := member;
    }

    /** `RWStructured(var, resource)`: fails if `var` is not a declared name;
        otherwise writes the buffer's UAV description into that name's slot and
        nothing else. */
    method RWStructured(name: string, resource: BufferResource) returns (result: Outcome<ArgumentError>, handle: nat)
      requires InHeap(name)
      requires resource.bytes >= 1 && resource.stride != 0
      modifies slots
      ensures name !in var2index ==> result == Fail(UnknownVariable(name)) && slots[..] == old(slots[..])
      ensures name in var2index ==>
                && result == Pass
                && handle == SlotHandle(var2index[name])
                && slots[..] == old(slots[..])[var2index[name] := UavView(resource.resource, UavDescriptionOf(resource))]
    {
      if name !in var2index {
        return Fail(UnknownVariable(name)), 0;
      }
      var index := var2index[name];
      handle := heapStart + ToUint32(increment as int * index) as int;
      slots[index] := UavView(resource.resource, UavDescriptionOf(resource));
      result := Pass;
    }

    /** `Constant(var, resource)`: fails if `var` is not a declared name;
        otherwise writes a constant-buffer view of the whole buffer (its GPU
        address and `bytes()`) into that name's slot and nothing else. */
    method Constant(name: string, buffer: ConstantBuffer, gpuAddress: nat) returns (result: Outcome<ArgumentError>, handle: nat)
      requires InHeap(name)
      modifies slots
      ensures name !in var2index ==> result == Fail(UnknownVariable(name)) && slots[..] == old(slots[..])
      ensures name in var2index ==>
                && result == Pass
                && handle == SlotHandle(var2index[name])
                && slots[..] == old(slots[..])[var2index[name] := CbvView(buffer.resource, gpuAddress, ToUint32(buffer.bytes as int))]
    {
      if name !in var2index {
        return Fail(UnknownVariable(name)), 0;
      }
      var index := var2index[name];
      handle := heapStart + ToUint32(increment as int * index) as int;
      slots[index] := CbvView(buffer.resource, gpuAddress, ToUint32(buffer.bytes as int));
      result := Pass;
    }
  }

  /** `device->AddRef(); _device = DxPtr<ID3D12Device>(device);`: the explicit
      reference is taken over by a temporary handle without another `AddRef`,
      the assignment adds one for `_device`, and the temporary's destructor
      releases one, so the device ends with one more reference than it had,
      held by the new handle. */
  method HoldDevice(device: RefCounted) returns (member: DxPtr)
    requires device.Valid() && !device.deleted
    modifies device
    ensures member.ptr == device && member.Valid() && fresh(member)
    ensures device.refCount == old(device.refCount) + 1 && !device.deleted
    ensures device.holders == old(device.holders) + {member} && device.unowned == old(device.unowned)
  {
    device.AddUnownedRef();
    member := new DxPtr.Empty();
    var temporary := new DxPtr.Adopt(device);
    member.Assign(temporary);
    temporary.Destroy();
  }

  /** While the heap's byte span fits in 32 bits, slot `i` sits at
      `start + increment * i` and distinct slots have distinct handles, so a
      bind writes exactly one descriptor. */
  lemma {:induction false} SlotHandlesDistinct(heap: ArgumentHeap, i: int, j: int)
    requires 0 <= i < heap.slots.Length && 0 <= j < heap.slots.Length
    requires 0 < heap.increment as int && heap.increment as int * heap.slots.Length <= TWO_TO_THE_32
    ensures heap.SlotHandle(i) == heap.heapStart + heap.increment as int * i
    ensures i != j ==> heap.SlotHandle(i) != heap.SlotHandle(j)
  {
    var inc, n := heap.increment as int, heap.slots.Length;
    assert inc * i < inc * n by {
      assert inc * n - inc * i == inc * (n - i);
    }
    assert inc * j < inc * n by {
      assert inc * n - inc * j == inc * (n - j);
    }
    assert 0 <= inc * i && 0 <= inc * j;
    if i < j {
      assert inc * j - inc * i == inc * (j - i);
    } else if j < i {
      assert inc * i - inc * j == inc * (i - j);
    }
  }

  /** Once the offset passes 2^32 it wraps: with a 32-byte increment the
      handle of slot 2^27 is the heap start itself. */
  lemma SlotHandleWraps(heap: ArgumentHeap)
    requires heap.increment == 32
    ensures heap.SlotHandle(0x800_0000) == heap.heapStart == heap.SlotHandle(0)
  {
  }
}
