/** Scanning tensor payloads for values that are not finite, block by block. */
module Safetensors {
  import opened Results

  type Bytes = seq<bv8>

  const BLOCK: nat := 8 * 1024 * 1024

  /** Bytes per element of the scanned types; other types are not scanned. */
  function ElementSize(dtype: string): Option<nat> {
    if dtype == "F32" then Some(4) else if dtype == "F16" || dtype == "BF16" then Some(2)
    else if dtype == "F64" then Some(8) else None
  }

  // ----- one element -----

  function Word16(e: Bytes): bv16
    requires |e| == 2
  {
    (e[0] as bv16) | ((e[1] as bv16) << 8)
  }

  function Word32(e: Bytes): bv32
    requires |e| == 4
  {
    (e[0] as bv32) | ((e[1] as bv32) << 8) | ((e[2] as bv32) << 16) | ((e[3] as bv32) << 24)
  }

  function Word64(e: Bytes): bv64
    requires |e| == 8
  {
    (e[0] as bv64) | ((e[1] as bv64) << 8) | ((e[2] as bv64) << 16) | ((e[3] as bv64) << 24)
    | ((e[4] as bv64) << 32) | ((e[5] as bv64) << 40) | ((e[6] as bv64) << 48) | ((e[7] as bv64) << 56)
  }

  /** The program's mask test on a little-endian element. */
  predicate Masked(dtype: string, e: Bytes)
    requires ElementSize(dtype) == Some(|e|)
  {
    if dtype == "F32" then Word32(e) & 0x7F800000 == 0x7F800000
    else if dtype == "F64" then Word64(e) & 0x7FF0000000000000 == 0x7FF0000000000000
    else if dtype == "F16" then Word16(e) & 0x7C00 == 0x7C00
    else Word16(e) & 0x7F80 == 0x7F80
  }

  /**
   * The exponent field is all ones: 8 bits above 23 of fraction, 11 above 52, 5 above 10, and 8 above 7, with the sign
   * above the exponent and the last byte the most significant.
   */
  predicate AllOnes(dtype: string, e: Bytes)
    requires ElementSize(dtype) == Some(|e|)
  {
    if dtype == "F32" then ((e[3] << 1) | (e[2] >> 7)) == 0xFF
    else if dtype == "F64" then (e[7] << 1) == 0xFE && (e[6] >> 4) == 0xF
    else if dtype == "F16" then ((e[1] << 1) >> 3) == 0x1F
    else ((e[1] << 1) | (e[0] >> 7)) == 0xFF
  }

  lemma MaskIsExponent16(a: bv8, b: bv8)
    ensures ((a as bv16) | ((b as bv16) << 8)) & 0x7C00 == 0x7C00 <==> ((b << 1) >> 3) == 0x1F
    ensures ((a as bv16) | ((b as bv16) << 8)) & 0x7F80 == 0x7F80 <==> ((b << 1) | (a >> 7)) == 0xFF
  {
  }

  lemma MaskIsExponent32(a: bv8, b: bv8, c: bv8, d: bv8)
    ensures ((a as bv32) | ((b as bv32) << 8) | ((c as bv32) << 16) | ((d as bv32) << 24)) & 0x7F800000 == 0x7F800000
       <==> ((d << 1) | (c >> 7)) == 0xFF
  {
  }

  lemma MaskIsExponent64(a: bv8, b: bv8, c: bv8, d: bv8, e: bv8, f: bv8, g: bv8, h: bv8)
    ensures ((a as bv64) | ((b as bv64) << 8) | ((c as bv64) << 16) | ((d as bv64) << 24) | ((e as bv64) << 32)
             | ((f as bv64) << 40) | ((g as bv64) << 48) | ((h as bv64) << 56))
            & 0x7FF0000000000000 == 0x7FF0000000000000
       <==> (h << 1) == 0xFE && (g >> 4) == 0xF
  {
  }

  /** The mask test finds exactly the elements whose exponent is all ones: infinities and NaNs. */
  lemma MaskIsExponent(dtype: string, e: Bytes)
    requires ElementSize(dtype) == Some(|e|)
    ensures Masked(dtype, e) <==> AllOnes(dtype, e)
  {
    if dtype == "F32" {
      MaskIsExponent32(e[0], e[1], e[2], e[3]);
    } else if dtype == "F64" {
      MaskIsExponent64(e[0], e[1], e[2], e[3], e[4], e[5], e[6], e[7]);
    } else {
      MaskIsExponent16(e[0], e[1]);
    }
  }

  // ----- a payload -----

  predicate Width(size: nat) {
    size == 2 || size == 4 || size == 8
  }

  lemma ElementWidth(dtype: string)
    ensures ElementSize(dtype).Some? ==> Width(ElementSize(dtype).value)
  {
  }

  /** The element that starts at byte `i` is finite. */
  predicate FiniteAt(dtype: string, payload: Bytes, i: nat)
    requires ElementSize(dtype).Some? && i + ElementSize(dtype).value <= |payload|
  {
    !AllOnes(dtype, payload[i..i + ElementSize(dtype).value])
  }

  /** Every element of the payload is finite. */
  ghost predicate AllFinite(dtype: string, payload: Bytes)
    requires ElementSize(dtype).Some?
  {
    var size := ElementSize(dtype).value;
    forall i :: 0 <= i && i % size == 0 && i + size <= |payload| ==> FiniteAt(dtype, payload, i)
  }

  lemma AlignedTwo(a: nat, b: nat)
    requires a % 2 == 0
    ensures (a + b) % 2 == b % 2
  {
  }

  lemma AlignedFour(a: nat, b: nat)
    requires a % 4 == 0
    ensures (a + b) % 4 == b % 4
  {
  }

  lemma AlignedEight(a: nat, b: nat)
    requires a % 8 == 0
    ensures (a + b) % 8 == b % 8
  {
  }

  /** Whole elements before a place do not move it within its element. */
  lemma Aligned(a: nat, b: nat, size: nat)
    requires Width(size) && a % size == 0
    ensures (a + b) % size == b % size
  {
    if size == 2 {
      AlignedTwo(a, b);
    } else if size == 4 {
      AlignedFour(a, b);
    } else {
      AlignedEight(a, b);
    }
  }

  /** The inner loop: does any whole element of this block match the mask? */
  method ScanBlock(dtype: string, block: Bytes) returns (clean: bool)
    requires ElementSize(dtype).Some? && |block| % ElementSize(dtype).value == 0
    ensures clean <==> AllFinite(dtype, block)
  {
    var size := ElementSize(dtype).value;
    ElementWidth(dtype);
    var i := 0;
    while i < |block|
      invariant 0 <= i <= |block| && i % size == 0
      invariant forall j :: 0 <= j < i && j % size == 0 && j + size <= |block| ==> FiniteAt(dtype, block, j)
    {
      Room(i, |block|, size);
      var element := block[i..i + size];
      MaskIsExponent(dtype, element);
      if Masked(dtype, element) {
        assert !FiniteAt(dtype, block, i);
        return false;
      }
      Aligned(i, size, size);
      NoneBetween(i, size);
      i := i + size;
    }
    return true;
  }

  lemma RoomEight(i: nat, n: nat)
    requires i < n
    ensures i % 2 == 0 && n % 2 == 0 ==> i + 2 <= n
    ensures i % 4 == 0 && n % 4 == 0 ==> i + 4 <= n
    ensures i % 8 == 0 && n % 8 == 0 ==> i + 8 <= n
  {
  }

  lemma Room(i: nat, n: nat, size: nat)
    requires Width(size) && i < n && i % size == 0 && n % size == 0
    ensures i + size <= n
  {
    RoomEight(i, n);
    assert size == 2 || size == 4 || size == 8;
  }

  lemma NoneBetween(i: nat, size: nat)
    requires Width(size) && i % size == 0
    ensures forall j :: i < j < i + size ==> j % size != 0
  {
    if size == 2 {
    } else if size == 4 {
    } else {
    }
  }

  /** The element at `i` is the same in the whole and in the part it lies in. */
  lemma SameElement(dtype: string, payload: Bytes, cut: nat, end: nat, i: nat)
    requires ElementSize(dtype).Some? && cut <= end <= |payload| && cut % ElementSize(dtype).value == 0
    requires i % ElementSize(dtype).value == 0 && i + ElementSize(dtype).value <= end
    ensures var size := ElementSize(dtype).value;
            if i < cut
            then i + size <= cut && (FiniteAt(dtype, payload[..end], i) <==> FiniteAt(dtype, payload[..cut], i))
            else (i - cut) % size == 0
                 && (FiniteAt(dtype, payload[..end], i) <==> FiniteAt(dtype, payload[cut..end], i - cut))
  {
    var size := ElementSize(dtype).value;
    ElementWidth(dtype);
    if i < cut {
      Room(i, cut, size);
      assert payload[..end][i..i + size] == payload[..cut][i..i + size];
    } else {
      Aligned(cut, i - cut, size);
      assert payload[..end][i..i + size] == payload[cut..end][i - cut..i - cut + size];
    }
  }

  /** A payload is finite when its first part and the block after it are: where it is cut does not matter. */
  lemma FiniteTogether(dtype: string, payload: Bytes, cut: nat, end: nat)
    requires ElementSize(dtype).Some? && cut <= end <= |payload| && cut % ElementSize(dtype).value == 0
    ensures AllFinite(dtype, payload[..end])
       <==> AllFinite(dtype, payload[..cut]) && AllFinite(dtype, payload[cut..end])
  {
    ElementWidth(dtype);
    if AllFinite(dtype, payload[..end]) {
      PartsFinite(dtype, payload, cut, end);
    }
    if AllFinite(dtype, payload[..cut]) && AllFinite(dtype, payload[cut..end]) {
      var size := ElementSize(dtype).value;
      forall i: nat | i % size == 0 && i + size <= |payload[..end]|
        ensures FiniteAt(dtype, payload[..end], i)
      {
        SameElement(dtype, payload, cut, end, i);
      }
    }
  }

  lemma PartsFinite(dtype: string, payload: Bytes, cut: nat, end: nat)
    requires ElementSize(dtype).Some? && cut <= end <= |payload| && cut % ElementSize(dtype).value == 0
    requires AllFinite(dtype, payload[..end])
    ensures AllFinite(dtype, payload[..cut]) && AllFinite(dtype, payload[cut..end])
  {
    var size := ElementSize(dtype).value;
    ElementWidth(dtype);
    forall i: nat | i % size == 0 && i + size <= |payload[..cut]|
      ensures FiniteAt(dtype, payload[..cut], i)
    {
      assert FiniteAt(dtype, payload[..end], i);
      SameElement(dtype, payload, cut, end, i);
    }
    forall i: nat | i % size == 0 && i + size <= |payload[cut..end]|
      ensures FiniteAt(dtype, payload[cut..end], i)
    {
      Aligned(cut, i, size);
      assert FiniteAt(dtype, payload[..end], cut + i);
      SameElement(dtype, payload, cut, end, cut + i);
    }
  }

  function Least(a: int, b: int): int {
    if a < b then a else b
  }

  /** The tensor lies inside the file. */
  predicate Inside(file: Bytes, start: int, end: int, offset: nat) {
    0 <= start <= end && offset + end <= |file|
  }

  /**
   * `_finite_tensor_payload`, reading blocks of any size that holds whole elements. Malformed offsets are refused; a
   * tensor inside the file is accepted exactly when all its elements are finite; one that runs past the end never is.
   */
  method FinitePayload(file: Bytes, dtype: string, start: int, end: int, offset: nat, block: nat)
    returns (r: Result<bool>)
    requires block > 0 && block % 8 == 0
    ensures ElementSize(dtype).None? ==> r == Ok(true)
    ensures ElementSize(dtype).Some? && Misplaced(dtype, start, end) ==> r.Err?
    ensures ElementSize(dtype).Some? && !Misplaced(dtype, start, end) && Inside(file, start, end, offset) ==>
              r == Ok(AllFinite(dtype, file[offset + start..offset + end]))
    ensures ElementSize(dtype).Some? && start < end && offset + end > |file| ==> r != Ok(true)
  {
    if ElementSize(dtype).None? {
      return Ok(true);
    }
    if Misplaced(dtype, start, end) {
      return Err;
    }
    r := ReadBlocks(file, dtype, offset + start, end - start, block);
  }

  /** Offsets that cannot be those of a tensor of this type. */
  predicate Misplaced(dtype: string, start: int, end: int)
    requires ElementSize(dtype).Some?
  {
    ElementWidth(dtype);
    start < 0 || end < start || (end - start) % ElementSize(dtype).value != 0
  }

  /** The reading loop, from `from` for `length` bytes. */
  method ReadBlocks(file: Bytes, dtype: string, from: nat, length: nat, block: nat) returns (r: Result<bool>)
    requires block > 0 && block % 8 == 0 && ElementSize(dtype).Some? && length % ElementSize(dtype).value == 0
    ensures from + length <= |file| ==> r == Ok(AllFinite(dtype, file[from..from + length]))
    ensures length > 0 && from + length > |file| ==> r != Ok(true)
  {
    var size := ElementSize(dtype).value;
    ElementWidth(dtype);
    var read := 0;
    while read < length
      invariant 0 <= read <= length && read % size == 0
      invariant from + length <= |file| ==> AllFinite(dtype, file[from..from + read])
      invariant from + length > |file| ==> read < length || length == 0
    {
      var remaining := length - read;
      Difference(length, read, size);
      NeverCut(block, remaining, size);
      var at := from + read;
      var got := if at >= |file| then 0 else Least(Least(block, remaining), |file| - at);
      if got == 0 {
        return Ok(false);
      }
      if got % size != 0 {
        return Err;
      }
      var clean := ScanBlock(dtype, file[at..at + got]);
      Joined(dtype, file, from, length, read, got, clean);
      if !clean {
        return Ok(false);
      }
      Aligned(read, got, size);
      read := read + got;
    }
    return Ok(true);
  }

  /** One more block inside the file. */
  lemma Joined(dtype: string, file: Bytes, from: nat, length: nat, read: nat, got: nat, clean: bool)
    requires ElementSize(dtype).Some? && read % ElementSize(dtype).value == 0
    requires got % ElementSize(dtype).value == 0 && read + got <= length && from + read + got <= |file|
    requires clean <==> AllFinite(dtype, file[from + read..from + read + got])
    requires from + length <= |file| ==> AllFinite(dtype, file[from..from + read])
    ensures from + length <= |file| && clean ==> AllFinite(dtype, file[from..from + (read + got)])
    ensures from + length <= |file| && !clean ==> !AllFinite(dtype, file[from..from + length])
  {
    if from + length <= |file| {
      var payload := file[from..from + length];
      assert payload[..read] == file[from..from + read] && payload[..length] == payload;
      assert payload[..read + got] == file[from..from + (read + got)];
      assert payload[read..read + got] == file[from + read..from + read + got];
      ElementWidth(dtype);
      FiniteTogether(dtype, payload, read, read + got);
      Aligned(read, got, ElementSize(dtype).value);
      FiniteTogether(dtype, payload, read + got, length);
    }
  }

  lemma Difference(a: nat, b: nat, size: nat)
    requires Width(size) && b <= a && a % size == 0 && b % size == 0
    ensures (a - b) % size == 0
  {
    Aligned(b, a - b, size);
  }

  /** What is asked for is always whole elements. */
  lemma NeverCut(block: nat, remaining: nat, size: nat)
    requires Width(size) && block % 8 == 0 && remaining % size == 0
    ensures Least(block, remaining) % size == 0
  {
    if size == 2 {
    } else if size == 4 {
    } else {
    }
  }

  // ----- a file -----

  /** A header entry; a field of the wrong type is absent. */
  datatype Descriptor = Descriptor(
    name: string, dtype: Option<string>, shape: Option<seq<int>>, offsets: Option<(int, int)>)

  function Product(shape: seq<int>): int {
    if shape == [] then 1 else shape[0] * Product(shape[1..])
  }

  const METADATA := "__metadata__"

  /** A complete entry whose tensor lies in the file, has the bytes its shape asks for, and holds only finite values. */
  ghost predicate Acceptable(file: Bytes, offset: nat, d: Descriptor) {
    && d.dtype.Some? && d.shape.Some? && d.offsets.Some?
    && (forall i :: 0 <= i < |d.shape.value| ==> d.shape.value[i] >= 0)
    && var (start, end) := d.offsets.value;
    && offset + end <= |file|
    && var size := ElementSize(d.dtype.value);
    && (size.Some? ==>
          && end - start == Product(d.shape.value) * size.value && !Misplaced(d.dtype.value, start, end)
          && AllFinite(d.dtype.value, file[offset + start..offset + end]))
  }

  /** One entry of the loop of `inspect_safetensors`. */
  method InspectTensor(file: Bytes, offset: nat, d: Descriptor) returns (ok: bool)
    ensures ok <==> Acceptable(file, offset, d)
  {
    if d.dtype.None? || d.shape.None? || d.offsets.None? {
      return false;
    }
    if exists i :: 0 <= i < |d.shape.value| && d.shape.value[i] < 0 {
      return false;
    }
    var (start, end) := d.offsets.value;
    var size := ElementSize(d.dtype.value);
    if offset + end > |file| || (size.Some? && end - start != Product(d.shape.value) * size.value) {
      return false;
    }
    var finite := FinitePayload(file, d.dtype.value, start, end, offset, BLOCK);
    return finite == Ok(true);
  }

  /** What is recorded of an accepted tensor. */
  datatype Tensor = Tensor(name: string, dtype: string, shape: seq<int>, start: int, end: int)

  function Complete(header: seq<Descriptor>): seq<Descriptor> {
    if header == [] then []
    else
      var n := |header| - 1;
      Complete(header[..n]) + if header[n].name == METADATA then [] else [header[n]]
  }

  /** The tensor stands for the entry. */
  predicate Records(t: Tensor, d: Descriptor) {
    && t.name == d.name && d.dtype == Some(t.dtype) && d.shape == Some(t.shape) && d.offsets == Some((t.start, t.end))
  }

  /** One tensor for each entry but the metadata, in order. */
  predicate RecordsAll(tensors: seq<Tensor>, header: seq<Descriptor>) {
    && |tensors| == |Complete(header)|
    && forall i :: 0 <= i < |tensors| ==> Records(tensors[i], Complete(header)[i])
  }

  /** `inspect_safetensors`: accepted exactly when there is a tensor and every entry is acceptable. */
  method InspectSafetensors(file: Bytes, offset: nat, header: seq<Descriptor>) returns (r: Result<seq<Tensor>>)
    ensures r.Ok? <==>
            && (exists i :: 0 <= i < |header| && header[i].name != "__metadata__")
            && forall i :: 0 <= i < |header| && header[i].name != "__metadata__" ==>
                 Acceptable(file, offset, header[i])
    ensures r.Ok? ==> RecordsAll(r.value, header)
  {
    var tensors: seq<Tensor> := [];
    for n := 0 to |header|
      invariant forall i :: 0 <= i < n && header[i].name != METADATA ==> Acceptable(file, offset, header[i])
      invariant tensors != [] <==> exists i :: 0 <= i < n && header[i].name != METADATA
      invariant RecordsAll(tensors, header[..n])
    {
      assert header[..n + 1][..n] == header[..n];
      if header[n].name == METADATA {
        continue;
      }
      var d := header[n];
      var ok := InspectTensor(file, offset, d);
      if !ok {
        return Err;
      }
      tensors := tensors + [Tensor(d.name, d.dtype.value, d.shape.value, d.offsets.value.0, d.offsets.value.1)];
    }
    assert header[..|header|] == header;
    return if tensors == [] then Err else Ok(tensors);
  }

  // ----- the four scanned types by name -----

  lemma Multiples(i: nat, n: nat, size: nat)
    requires Width(size)
    ensures (i * size) % size == 0
    ensures i % size == 0 ==> i / size * size == i
  {
    if size == 2 {
    } else if size == 4 {
    } else {
    }
  }

  /** A payload is finite when each of its elements, counted one by one, is. */
  lemma ByElement(dtype: string, payload: Bytes, count: nat)
    requires ElementSize(dtype).Some? && |payload| == count * ElementSize(dtype).value
    ensures var size := ElementSize(dtype).value;
            AllFinite(dtype, payload) <==>
            forall k: nat :: k < count ==>
              k * size + size <= |payload| && !AllOnes(dtype, payload[k * size..k * size + size])
  {
    var size := ElementSize(dtype).value;
    ElementWidth(dtype);
    if AllFinite(dtype, payload) {
      forall k: nat | k < count
        ensures k * size + size <= |payload| && !AllOnes(dtype, payload[k * size..k * size + size])
      {
        Fits(k, count, size);
        Multiples(k, count, size);
        assert FiniteAt(dtype, payload, k * size);
      }
    }
    if forall k: nat :: k < count ==>
        k * size + size <= |payload| && !AllOnes(dtype, payload[k * size..k * size + size])
    {
      forall i: nat | i % size == 0 && i + size <= |payload|
        ensures FiniteAt(dtype, payload, i)
      {
        Multiples(i, count, size);
        var k := i / size;
        assert k * size == i;
        Counted(k, count, size);
      }
    }
  }

  lemma Fits(k: nat, count: nat, size: nat)
    requires k < count && Width(size)
    ensures k * size + size <= count * size
  {
    if size == 2 {
    } else if size == 4 {
    } else {
    }
  }

  lemma Counted(k: nat, count: nat, size: nat)
    requires k * size + size <= count * size && Width(size)
    ensures k < count
  {
    if size == 2 {
    } else if size == 4 {
    } else {
    }
  }

  /** An entry with its parts in place and no negative dimension. */
  predicate Shaped(d: Descriptor, dtype: string, shape: seq<int>, start: int, end: int) {
    && d.dtype == Some(dtype) && d.shape == Some(shape) && d.offsets == Some((start, end))
    && forall i :: 0 <= i < |shape| ==> shape[i] >= 0
  }

  /** A tensor of `size` bytes an element lies in the file and has as many bytes as its shape asks for. */
  predicate Lies(file: Bytes, offset: nat, shape: seq<int>, start: int, end: int, size: nat) {
    start >= 0 && offset + end <= |file| && end - start == Product(shape) * size
  }

  lemma {:induction false} ProductNatural(shape: seq<int>)
    requires forall i :: 0 <= i < |shape| ==> shape[i] >= 0
    ensures Product(shape) >= 0
    decreases |shape|
  {
    if shape != [] {
      ProductNatural(shape[1..]);
      NaturalProduct(shape[0], Product(shape[1..]));
    }
  }

  /** The product of a shape is that of its parts, however it is split. */
  lemma {:induction false} ProductSplits(a: seq<int>, b: seq<int>)
    ensures Product(a + b) == Product(a) * Product(b)
    ensures |b| == 1 ==> Product(b) == b[0]
    decreases |a|
  {
    if a == [] {
      assert a + b == b;
    } else {
      assert (a + b)[1..] == a[1..] + b;
      ProductSplits(a[1..], b);
      Grouped(a[0], Product(a[1..]), Product(b));
    }
    if |b| == 1 {
      assert b[1..] == [];
    }
  }

  lemma Grouped(x: int, y: int, z: int)
    ensures x * (y * z) == x * y * z
  {
  }

  lemma NaturalProduct(a: nat, b: nat)
    ensures a * b >= 0
  {
  }

  /** The element `k` of a tensor that starts at `at`. */
  function Element(file: Bytes, at: nat, k: nat, size: nat): Bytes
    requires at + k * size + size <= |file|
  {
    file[at + k * size..at + k * size + size]
  }

  lemma ElementOf(file: Bytes, from: nat, n: nat, k: nat, count: nat, size: nat)
    requires Width(size) && from + n <= |file| && n == count * size && k < count
    ensures k * size + size <= n && from + k * size + size <= |file|
    ensures file[from..from + n][k * size..k * size + size] == Element(file, from, k, size)
  {
    Fits(k, count, size);
    Subslice(file, from, n, k * size, size);
  }

  lemma Subslice(file: Bytes, from: nat, n: nat, i: nat, size: nat)
    requires from + n <= |file| && i + size <= n
    ensures file[from..from + n][i..i + size] == file[from + i..from + i + size]
  {
    var a, b := file[from..from + n][i..i + size], file[from + i..from + i + size];
    assert |a| == |b| == size;
    forall j | 0 <= j < size
      ensures a[j] == b[j]
    {
      assert a[j] == file[from..from + n][i + j] == file[from + i + j] == b[j];
    }
  }

  /** Every element counted from a place in the file is finite. */
  ghost predicate FiniteFrom(file: Bytes, from: nat, dtype: string, count: nat, size: nat)
    requires ElementSize(dtype) == Some(size)
  {
    forall k: nat :: k < count ==>
      from + k * size + size <= |file| && !AllOnes(dtype, Element(file, from, k, size))
  }

  lemma FinitePart(file: Bytes, from: nat, n: nat, dtype: string, count: nat, size: nat)
    requires ElementSize(dtype) == Some(size) && from + n <= |file| && n == count * size
    ensures AllFinite(dtype, file[from..from + n]) <==> FiniteFrom(file, from, dtype, count, size)
  {
    ElementWidth(dtype);
    ByElement(dtype, file[from..from + n], count);
    forall k: nat | k < count
      ensures k * size + size <= n && from + k * size + size <= |file|
      ensures file[from..from + n][k * size..k * size + size] == Element(file, from, k, size)
    {
      ElementOf(file, from, n, k, count, size);
    }
  }

  lemma Accepted(
      file: Bytes, offset: nat, d: Descriptor, dtype: string, shape: seq<int>, start: int, end: int, size: nat)
    requires Shaped(d, dtype, shape, start, end) && ElementSize(dtype) == Some(size)
    ensures Product(shape) >= 0
    ensures Acceptable(file, offset, d)
       <==> && Lies(file, offset, shape, start, end, size)
            && FiniteFrom(file, offset + start, dtype, Product(shape), size)
  {
    ProductNatural(shape);
    ElementWidth(dtype);
    if start >= 0 && offset + end <= |file| && end - start == Product(shape) * size {
      NaturalProduct(Product(shape), size);
      Multiples(Product(shape), Product(shape), size);
      FinitePart(file, offset + start, end - start, dtype, Product(shape), size);
      assert file[offset + start..offset + end] == file[offset + start..offset + start + (end - start)];
    }
  }

  /** A 32-bit tensor: four bytes an element, none with all eight bits of its exponent set. */
  lemma AcceptsF32(file: Bytes, offset: nat, d: Descriptor, shape: seq<int>, start: int, end: int)
    requires Shaped(d, "F32", shape, start, end)
    ensures Acceptable(file, offset, d)
       <==> && Lies(file, offset, shape, start, end, 4)
            && forall k: nat :: k < Product(shape) ==>
                 && offset + start + k * 4 + 4 <= |file|
                 && var e := Element(file, offset + start, k, 4); ((e[3] << 1) | (e[2] >> 7)) != 0xFF
  {
    Accepted(file, offset, d, "F32", shape, start, end, 4);
  }

  /** A 64-bit tensor: eight bytes an element, none with all eleven bits of its exponent set. */
  lemma AcceptsF64(file: Bytes, offset: nat, d: Descriptor, shape: seq<int>, start: int, end: int)
    requires Shaped(d, "F64", shape, start, end)
    ensures Acceptable(file, offset, d)
       <==> && Lies(file, offset, shape, start, end, 8)
            && forall k: nat :: k < Product(shape) ==>
                 && offset + start + k * 8 + 8 <= |file|
                 && var e := Element(file, offset + start, k, 8); !((e[7] << 1) == 0xFE && (e[6] >> 4) == 0xF)
  {
    Accepted(file, offset, d, "F64", shape, start, end, 8);
  }

  /** A half-precision tensor: two bytes an element, none with all five bits of its exponent set. */
  lemma AcceptsF16(file: Bytes, offset: nat, d: Descriptor, shape: seq<int>, start: int, end: int)
    requires Shaped(d, "F16", shape, start, end)
    ensures Acceptable(file, offset, d)
       <==> && Lies(file, offset, shape, start, end, 2)
            && forall k: nat :: k < Product(shape) ==>
                 && offset + start + k * 2 + 2 <= |file|
                 && var e := Element(file, offset + start, k, 2); ((e[1] << 1) >> 3) != 0x1F
  {
    Accepted(file, offset, d, "F16", shape, start, end, 2);
  }

  /** A brain-float tensor: two bytes an element, none with all eight bits of its exponent set. */
  lemma AcceptsBF16(file: Bytes, offset: nat, d: Descriptor, shape: seq<int>, start: int, end: int)
    requires Shaped(d, "BF16", shape, start, end)
    ensures Acceptable(file, offset, d)
       <==> && Lies(file, offset, shape, start, end, 2)
            && forall k: nat :: k < Product(shape) ==>
                 && offset + start + k * 2 + 2 <= |file|
                 && var e := Element(file, offset + start, k, 2); ((e[1] << 1) | (e[0] >> 7)) != 0xFF
  {
    Accepted(file, offset, d, "BF16", shape, start, end, 2);
  }

  /** A tensor of any other type is accepted wherever it ends inside the file, whatever it holds. */
  lemma AcceptsOther(file: Bytes, offset: nat, d: Descriptor, dtype: string, shape: seq<int>, start: int, end: int)
    requires Shaped(d, dtype, shape, start, end) && dtype !in {"F32", "F64", "F16", "BF16"}
    ensures Acceptable(file, offset, d) <==> offset + end <= |file|
  {
  }
}
