/** CSysInfo: the CPU feature list decoded from cpuid/xgetbv register
    values, the CPU brand string, and the Windows version name. The
    registers, XCR0 and the version record are inputs. */
module SysInfo {
  import opened Text
  import opened Utility

  // ---------------------------------------------------------------------
  // Registers

  /** One cpuid result: CPURegs[0..3] = EAX, EBX, ECX, EDX. */
  datatype Regs = Regs(eax: bv32, ebx: bv32, ecx: bv32, edx: bv32)

  /** The cpuid leaves GetCPUFeatures reads, and what xgetbv(0) returns. */
  datatype CpuidInfo = CpuidInfo(leaf0: Regs, leaf1: Regs, leaf7: Regs, ext0: Regs, ext1: Regs, xcr0: bv64)

  /** `int nIds = CPURegs[0]`: the highest standard leaf, read as signed. */
  function MaxLeaf(c: CpuidInfo): int {
    if c.leaf0.eax < 0x8000_0000 then c.leaf0.eax as int else c.leaf0.eax as int - UINT32_MODULUS
  }

  /** `unsigned nExIds = CPURegs[0]` of leaf 0x80000000. */
  function MaxExtLeaf(c: CpuidInfo): nat {
    c.ext0.eax as nat
  }

  datatype Leaf = Leaf1 | Leaf7 | Ext1
  datatype Register = EBX | ECX | EDX

  /** A leaf is read only when the reported maximum allows it. */
  predicate LeafAvailable(c: CpuidInfo, leaf: Leaf) {
    match leaf
    case Leaf1 => MaxLeaf(c) >= 1
    case Leaf7 => MaxLeaf(c) >= 7
    case Ext1 => MaxExtLeaf(c) >= 0x8000_0001
  }

  function LeafRegs(c: CpuidInfo, leaf: Leaf): Regs {
    match leaf
    case Leaf1 => c.leaf1
    case Leaf7 => c.leaf7
    case Ext1 => c.ext1
  }

  function RegValue(r: Regs, reg: Register): bv32 {
    match reg
    case EBX => r.ebx
    case ECX => r.ecx
    case EDX => r.edx
  }

  /** `(x & (1 << bit)) != 0`. */
  predicate BitSet(x: bv32, bit: nat)
    requires bit < 32
  {
    x & (1 << bit) != 0
  }

  // ---------------------------------------------------------------------
  // Operating-system support

  /** XCR0 is read only when CPUID.1:ECX bit 27 (XSAVE) is set, and is 0
      otherwise. Leaf 1 is read here whatever the maximum leaf. */
  function XcrMask(c: CpuidInfo): bv64 {
    if BitSet(c.leaf1.ecx, 27) then c.xcr0 else 0
  }

  predicate OsAvx(c: CpuidInfo) {
    XcrMask(c) & 6 == 6
  }

  /** OS_FEATURE_AVX512 takes the value of OS_FEATURE_AVX when bits 5-7
      and bits 1-2 of XCR0 are not all clear. */
  predicate OsAvx512(c: CpuidInfo) {
    XcrMask(c) & 0xE0 != 0 && XcrMask(c) & 6 != 0 && OsAvx(c)
  }

  lemma OsAvx512ImpliesOsAvx(c: CpuidInfo)
    ensures OsAvx512(c) ==> OsAvx(c)
    ensures !BitSet(c.leaf1.ecx, 27) ==> !OsAvx(c) && !OsAvx512(c)
    ensures OsAvx(c) <==> BitSet(c.leaf1.ecx, 27) && c.xcr0 & 6 == 6
  {
  }

  // ---------------------------------------------------------------------
  // The feature table

  /** Whether a feature's name is starred when the OS does not save the
      registers it needs. */
  datatype OsGroup = Plain | AvxGroup | Avx512Group

  /** A bit position of a 32-bit register. */
  type BitIndex = b: nat | b < 32

  /** A listed name: not empty, not starting with '*' and not ending with
      a separator character. */
  predicate GoodName(s: string) {
    |s| > 0 && s[0] != '*' && s[|s| - 1] != ',' && s[|s| - 1] != ' '
  }

  type Name = s: string | GoodName(s) witness "MMX"

  datatype Feature = Feature(name: Name, leaf: Leaf, reg: Register, bit: BitIndex, group: OsGroup)

  /** The features in the order GetCPUFeatures lists them, each with the
      leaf, register and bit it is tested on. */
  const Features: seq<Feature> := [
    Feature("MMX", Leaf1, EDX, 23, Plain),
    Feature("SSE", Leaf1, EDX, 25, Plain),
    Feature("SSE2", Leaf1, EDX, 26, Plain),
    Feature("SSE3", Leaf1, ECX, 0, Plain),
    Feature("SSSE3", Leaf1, ECX, 9, Plain),
    Feature("SSE4.1", Leaf1, ECX, 19, Plain),
    Feature("SSE4.2", Leaf1, ECX, 20, Plain),
    Feature("AVX", Leaf1, ECX, 28, AvxGroup),
    Feature("AVX2", Leaf7, EBX, 5, AvxGroup),
    Feature("FMA3", Leaf1, ECX, 12, AvxGroup),
    Feature("FMA4", Ext1, ECX, 16, AvxGroup),
    Feature("AVX512F", Leaf7, EBX, 16, Avx512Group),
    Feature("AVX512DQ", Leaf7, EBX, 17, Avx512Group),
    Feature("AVX512PF", Leaf7, EBX, 26, Avx512Group),
    Feature("AVX512ER", Leaf7, EBX, 27, Avx512Group),
    Feature("AVX512CD", Leaf7, EBX, 28, Avx512Group),
    Feature("AVX512BW", Leaf7, EBX, 30, Avx512Group),
    Feature("AVX512VL", Leaf7, EBX, 31, Avx512Group),
    Feature("AVX512IFMA", Leaf7, EBX, 21, Avx512Group),
    Feature("AVX512VBMI", Leaf7, ECX, 1, Avx512Group),
    Feature("SSE4A", Ext1, ECX, 6, Plain),
    Feature("3DNOW", Ext1, EDX, 31, Plain),
    Feature("3DNOWEXT", Ext1, EDX, 30, Plain),
    Feature("MMXEXT", Ext1, EDX, 22, Plain),
    Feature("MOVBE", Leaf1, ECX, 22, Plain),
    Feature("POPCNT", Leaf1, ECX, 23, Plain),
    Feature("AES", Leaf1, ECX, 25, Plain),
    Feature("F16C", Leaf1, ECX, 29, Plain)
  ]

  /** The CPU flag: the leaf is available and the bit is set. */
  predicate CpuHas(c: CpuidInfo, f: Feature) {
    LeafAvailable(c, f.leaf) && BitSet(RegValue(LeafRegs(c, f.leaf), f.reg), f.bit)
  }

  predicate OsSupports(c: CpuidInfo, g: OsGroup) {
    match g
    case Plain => true
    case AvxGroup => OsAvx(c)
    case Avx512Group => OsAvx512(c)
  }

  /** The listed name, starred when the OS flag of its group is false. */
  function Item(c: CpuidInfo, f: Feature): string {
    (if OsSupports(c, f.group) then "" else "*") + f.name
  }

  /** The items of the features the CPU has, in table order. */
  function Items(c: CpuidInfo, t: seq<Feature>): seq<string> {
    if t == [] then []
    else
      var f := t[|t| - 1];
      Items(c, t[..|t| - 1]) + (if CpuHas(c, f) then [Item(c, f)] else [])
  }

  /** The CPUFeatures text. */
  function FeatureList(c: CpuidInfo): string {
    Join(Items(c, Features), ", ")
  }

  const Separators: set<char> := {',', ' '}

  lemma {:induction false} ItemsGood(c: CpuidInfo, t: seq<Feature>)
    ensures forall i :: 0 <= i < |Items(c, t)| ==> EndsOutside(Items(c, t)[i], Separators)
    decreases |t|
  {
    if t != [] {
      ItemsGood(c, t[..|t| - 1]);
      var f := t[|t| - 1];
      assert GoodName(f.name);
    }
  }

  /** The feature text is empty or ends in a character of a name. */
  lemma FeatureListShape(c: CpuidInfo)
    ensures var s := FeatureList(c);
      s == [] || (s[|s| - 1] != ',' && s[|s| - 1] != ' ')
    ensures FeatureList(c) == [] <==> Items(c, Features) == []
  {
    var items := Items(c, Features);
    ItemsGood(c, Features);
    if items != [] {
      JoinEndsOutside(items, ", ", Separators);
    }
  }

  // ---------------------------------------------------------------------
  // Star marking and bit tests

  /** A name is starred exactly when it belongs to the AVX or AVX-512
      group and the matching OS flag is false. */
  lemma ItemStar(c: CpuidInfo, f: Feature)
    ensures Item(c, f)[0] == '*' <==> f.group != Plain && !OsSupports(c, f.group)
    ensures Item(c, f) == f.name || Item(c, f) == "*" + f.name
  {
  }

  /** Two of the documented bit positions: MMX is EDX bit 23 of leaf 1 and
      AVX2 is EBX bit 5 of leaf 7, each only when the maximum leaf allows. */
  lemma DocumentedBits(c: CpuidInfo)
    ensures Features[0].name == "MMX" &&
      (CpuHas(c, Features[0]) <==> MaxLeaf(c) >= 1 && c.leaf1.edx & (1 << 23) != 0)
    ensures Features[8].name == "AVX2" &&
      (CpuHas(c, Features[8]) <==> MaxLeaf(c) >= 7 && c.leaf7.ebx & (1 << 5) != 0)
  {
  }

  predicate SameReadLeaves(c: CpuidInfo, d: CpuidInfo) {
    MaxLeaf(c) == MaxLeaf(d) && MaxExtLeaf(c) == MaxExtLeaf(d) && XcrMask(c) == XcrMask(d) &&
    (LeafAvailable(c, Leaf1) ==> c.leaf1 == d.leaf1) &&
    (LeafAvailable(c, Leaf7) ==> c.leaf7 == d.leaf7) &&
    (LeafAvailable(c, Ext1) ==> c.ext1 == d.ext1)
  }

  lemma CpuHasSameReadLeaves(c: CpuidInfo, d: CpuidInfo, f: Feature)
    requires SameReadLeaves(c, d)
    ensures CpuHas(c, f) == CpuHas(d, f)
  {
    if LeafAvailable(c, f.leaf) {
      assert LeafRegs(c, f.leaf) == LeafRegs(d, f.leaf);
    }
  }

  lemma ItemSameReadLeaves(c: CpuidInfo, d: CpuidInfo, f: Feature)
    requires SameReadLeaves(c, d)
    ensures Item(c, f) == Item(d, f)
  {
    assert OsAvx(c) == OsAvx(d);
    assert OsSupports(c, f.group) == OsSupports(d, f.group);
  }

  /** Items depend on the registers of available leaves only. */
  lemma {:induction false} ItemsIgnoreUnreadLeaves(c: CpuidInfo, d: CpuidInfo, t: seq<Feature>)
    requires SameReadLeaves(c, d)
    ensures Items(c, t) == Items(d, t)
    decreases |t|
  {
    if t != [] {
      ItemsIgnoreUnreadLeaves(c, d, t[..|t| - 1]);
      CpuHasSameReadLeaves(c, d, t[|t| - 1]);
      ItemSameReadLeaves(c, d, t[|t| - 1]);
    }
  }

  /** When the maximum leaf is below 7, leaf 7 has no say in the list. */
  lemma Leaf7UnreadBelowMax(c: CpuidInfo, leaf7: Regs)
    requires MaxLeaf(c) < 7
    ensures FeatureList(c) == FeatureList(c.(leaf7 := leaf7))
  {
    ItemsIgnoreUnreadLeaves(c, c.(leaf7 := leaf7), Features);
  }

  // ---------------------------------------------------------------------
  // RemoveMultipleWhiteSpaces

  /** The string with every run of spaces shortened to one space. */
  function Collapse(s: string): string {
    if |s| <= 1 then s
    else (if s[0] == ' ' && s[1] == ' ' then [] else [s[0]]) + Collapse(s[1..])
  }

  /** Erasing one space of a double space does not change the collapsed
      string. */
  lemma {:induction false} CollapseErase(s: string, i: nat)
    requires i + 1 < |s| && s[i] == ' ' && s[i + 1] == ' '
    ensures Collapse(s[..i] + s[i + 1..]) == Collapse(s)
    decreases i
  {
    var s' := s[..i] + s[i + 1..];
    if i == 0 {
      assert s' == s[1..];
    } else {
      var t := s[1..];
      assert t[..i - 1] + t[i..] == s'[1..];
      CollapseErase(t, i - 1);
      assert s'[0] == s[0];
      assert s'[1] == s[1];
    }
  }

  lemma {:induction false} CollapseNoDouble(s: string)
    requires !Contains(s, "  ")
    ensures Collapse(s) == s
  {
    if |s| > 1 {
      assert !OccursAt(s, "  ", 0);
      assert !Contains(s[1..], "  ") by {
        forall i: nat | i <= |s[1..]| && OccursAt(s[1..], "  ", i)
          ensures false
        {
          assert OccursAt(s, "  ", i + 1);
        }
      }
      CollapseNoDouble(s[1..]);
    }
  }

  /** RemoveMultipleWhiteSpaces: erase one character at the first "  "
      until there is none. */
  method RemoveMultipleWhiteSpaces(s0: string) returns (s: string)
    ensures s == Collapse(s0)
  {
    s := s0;
    var index := Find(s, "  ");
    while index.Some?
      invariant Collapse(s) == Collapse(s0)
      invariant index == Find(s, "  ")
      decreases |s|
    {
      var i := index.value;
      assert OccursAt(s, "  ", i);
      assert s[i] == s[i..i + 2][0] && s[i + 1] == s[i..i + 2][1];
      CollapseErase(s, i);
      s := s[..i] + s[i + 1..];
      index := Find(s, "  ");
    }
    CollapseNoDouble(s);
  }

  /** No two spaces in a row remain. */
  lemma {:induction false} CollapseHasNoDouble(s: string)
    ensures forall i :: 0 <= i < |Collapse(s)| - 1 ==> !(Collapse(s)[i] == ' ' && Collapse(s)[i + 1] == ' ')
  {
    if |s| > 1 {
      CollapseHasNoDouble(s[1..]);
      CollapseStarts(s[1..]);
    }
  }

  /** The collapsed string starts as the string does, up to a run of
      spaces, and ends with the same character. */
  lemma {:induction false} CollapseStarts(s: string)
    ensures |Collapse(s)| <= |s|
    ensures s != [] ==> Collapse(s) != [] && Collapse(s)[|Collapse(s)| - 1] == s[|s| - 1]
    ensures s != [] && s[0] != ' ' ==> Collapse(s)[0] == s[0]
    ensures s != [] && s[0] == ' ' ==> Collapse(s)[0] == ' '
  {
    if |s| > 1 {
      CollapseStarts(s[1..]);
    }
  }

  /** The characters other than spaces, in order. */
  function NonSpaces(s: string): string {
    if s == [] then [] else (if s[0] == ' ' then [] else [s[0]]) + NonSpaces(s[1..])
  }

  /** Only spaces are removed. */
  lemma {:induction false} CollapseRemovesOnlySpaces(s: string)
    ensures NonSpaces(Collapse(s)) == NonSpaces(s)
  {
    if |s| > 1 {
      CollapseRemovesOnlySpaces(s[1..]);
      NonSpacesConcat((if s[0] == ' ' && s[1] == ' ' then [] else [s[0]]), Collapse(s[1..]));
    }
  }

  lemma {:induction false} NonSpacesConcat(a: string, b: string)
    ensures NonSpaces(a + b) == NonSpaces(a) + NonSpaces(b)
  {
    if a != [] {
      assert (a + b)[0] == a[0];
      assert (a + b)[1..] == a[1..] + b;
      NonSpacesConcat(a[1..], b);
    } else {
      assert a + b == b;
    }
  }

  /** "  " occurs exactly where two spaces stand side by side. */
  lemma ContainsDouble(s: string)
    ensures Contains(s, "  ") <==> exists i :: 0 <= i < |s| - 1 && s[i] == ' ' && s[i + 1] == ' '
  {
    if Contains(s, "  ") {
      var i: nat :| i <= |s| && OccursAt(s, "  ", i);
      assert s[i..i + 2] == "  ";
      assert s[i] == ' ' && s[i + 1] == ' ';
    }
    if exists i :: 0 <= i < |s| - 1 && s[i] == ' ' && s[i + 1] == ' ' {
      var i :| 0 <= i < |s| - 1 && s[i] == ' ' && s[i + 1] == ' ';
      assert s[i..i + 2] == "  ";
      assert OccursAt(s, "  ", i);
    }
  }

  /** A string without "  " is returned unchanged, and only such a one. */
  lemma CollapseUnchanged(s: string)
    ensures Collapse(s) == s <==> !Contains(s, "  ")
  {
    ContainsDouble(s);
    CollapseHasNoDouble(s);
    if !Contains(s, "  ") {
      CollapseNoDouble(s);
    }
  }

  lemma CollapseIdempotent(s: string)
    ensures Collapse(Collapse(s)) == Collapse(s)
  {
    CollapseHasNoDouble(s);
    ContainsDouble(Collapse(s));
    CollapseNoDouble(Collapse(s));
  }

  // ---------------------------------------------------------------------
  // CSysInfo

  /** The brand-string bytes read up to the first NUL, as `%s` does. */
  function UpToNul(raw: string): (r: string)
    ensures |r| <= |raw|
    ensures r == raw[..|r|] && '\0' !in r
    ensures |r| < |raw| ==> raw[|r|] == '\0'
  {
    if raw == [] || raw[0] == '\0' then [] else [raw[0]] + UpToNul(raw[1..])
  }

  /** The registers of leaves 0x80000002, 0x80000003 and 0x80000004, which
      GetCPUInfo copies into the brand buffer. */
  datatype BrandLeaves = BrandLeaves(l2: Regs, l3: Regs, l4: Regs)

  /** Every character is a byte value. */
  predicate IsBytes(s: string) {
    forall i :: 0 <= i < |s| ==> s[i] as int < 256
  }

  lemma BytesConcat(a: string, b: string)
    requires IsBytes(a) && IsBytes(b)
    ensures IsBytes(a + b)
  {
    forall i | 0 <= i < |a + b|
      ensures (a + b)[i] as int < 256
    {
      if i >= |a| {
        assert (a + b)[i] == b[i - |a|];
      }
    }
  }

  /** The four bytes of a register in memory order (little-endian). */
  function RegBytes(r: bv32): (b: string)
    ensures |b| == 4 && IsBytes(b)
  {
    [((r & 0xFF) as int) as char, (((r >> 8) & 0xFF) as int) as char,
     (((r >> 16) & 0xFF) as int) as char, (((r >> 24) & 0xFF) as int) as char]
  }

  /** The 16 bytes one leaf's memcpy of CPURegs copies: EAX, EBX, ECX, EDX. */
  function LeafBytes(r: Regs): (b: string)
    ensures |b| == 16 && IsBytes(b)
  {
    var a, b, c, d := RegBytes(r.eax), RegBytes(r.ebx), RegBytes(r.ecx), RegBytes(r.edx);
    BytesConcat(a, b);
    BytesConcat(a + b, c);
    BytesConcat(a + b + c, d);
    a + b + c + d
  }

  /** The first 48 bytes of szCPUBrandString after the three copies, at
      offsets 0, 16 and 32; the rest of the zeroed buffer is NUL. */
  function BrandOf(b: BrandLeaves): string {
    LeafBytes(b.l2) + LeafBytes(b.l3) + LeafBytes(b.l4)
  }

  /** The buffer holds exactly the three leaves' registers, in order, and
      nothing but byte values. */
  lemma BrandOfLayout(b: BrandLeaves)
    ensures |BrandOf(b)| == 48 && IsBytes(BrandOf(b))
    ensures BrandOf(b)[..16] == LeafBytes(b.l2) && BrandOf(b)[16..32] == LeafBytes(b.l3) &&
      BrandOf(b)[32..] == LeafBytes(b.l4)
  {
    var x, y, z := LeafBytes(b.l2), LeafBytes(b.l3), LeafBytes(b.l4);
    BytesConcat(x, y);
    BytesConcat(x + y, z);
    assert BrandOf(b) == x + y + z;
  }

  class CSysInfo {
    var cpuBrandString: string
    var cpuFeatures: string

    constructor()
      ensures cpuBrandString == "" && cpuFeatures == ""
    {
      cpuBrandString := "";
      cpuFeatures := "";
    }

    /** GetCPUFeatures: one `+=` per feature the CPU has, then the
        trailing ", " erased. */
    method GetCPUFeatures(c: CpuidInfo)
      modifies this
      ensures cpuFeatures == FeatureList(c)
      ensures cpuBrandString == old(cpuBrandString)
    {
      var text := AppendFeatures(c, Features);
      ItemsGood(c, Features);
      TrimTrailingSeparator(Items(c, Features), ", ", Separators);
      cpuFeatures := TrimEnd(text, Separators);
    }

    /** GetCPUInfo with the cpuid leaves, and the brand leaves, as inputs:
        when leaf 0x80000000 reports a maximum below 0x80000004 it fails with the brand string empty;
        otherwise the brand is trimmed and its space runs collapsed,
        and the feature list is built. */
    method GetCPUInfo(brand: BrandLeaves, c: CpuidInfo) returns (ok: bool)
      modifies this
      ensures ok <==> MaxExtLeaf(c) >= 0x8000_0004
      ensures !ok ==> cpuBrandString == "" && cpuFeatures == old(cpuFeatures)
      ensures ok ==> cpuBrandString == Collapse(StrTrim(UpToNul(BrandOf(brand)))) && cpuFeatures == FeatureList(c)
    {
      cpuBrandString := "";
      if MaxExtLeaf(c) < 0x8000_0004 {
        return false;
      }
      var text := UpToNul(BrandOf(brand));
      text := StrTrimLeft(StrTrimRight(text));
      cpuBrandString := RemoveMultipleWhiteSpaces(text);
      GetCPUFeatures(c);
      ok := true;
    }
  }

  /** The `+=` chain of GetCPUFeatures over a feature table. */
  method AppendFeatures(c: CpuidInfo, t: seq<Feature>) returns (text: string)
    ensures text == Trailing(Items(c, t), ", ")
  {
    text := "";
    var i := 0;
    while i < |t|
      invariant i <= |t|
      invariant text == Trailing(Items(c, t[..i]), ", ")
    {
      var f := t[i];
      assert t[..i + 1][..i] == t[..i];
      assert t[..i + 1][i] == f;
      assert Items(c, t[..i + 1]) == Items(c, t[..i]) + (if CpuHas(c, f) then [Item(c, f)] else []);
      if CpuHas(c, f) {
        TrailingSnoc(Items(c, t[..i]), Item(c, f), ", ");
        text := text + Item(c, f) + ", ";
      } else {
        assert Items(c, t[..i + 1]) == Items(c, t[..i]);
      }
      i := i + 1;
    }
    assert t[..i] == t;
  }

  /** The normalised brand string has no white space at either end and no
      double space. */
  lemma BrandShape(raw: string)
    ensures var b := Collapse(StrTrim(UpToNul(raw)));
      (b == [] || (b[0] !in TrimChars && b[|b| - 1] !in TrimChars)) &&
      !Contains(b, "  ")
  {
    var t := StrTrim(UpToNul(raw));
    TrimCharacterisation(UpToNul(raw));
    CollapseStarts(t);
    CollapseHasNoDouble(t);
    ContainsDouble(Collapse(t));
  }

  // ---------------------------------------------------------------------
  // GetOSVersion

  const VER_NT_WORKSTATION: nat := 1

  /** The RTL_OSVERSIONINFOEXW fields GetOSVersion reads. */
  datatype VersionInfo = VersionInfo(
    major: nat, minor: nat, build: nat, spMajor: nat, spMinor: nat, productType: nat)

  /** What the ntdll lookup and the RtlGetVersion call gave. */
  /** An NTSTATUS other than STATUS_SUCCESS. */
  type FailureStatus = x: int | x != 0 witness 1

  datatype VersionQuery = NoNtdll | NoRtlGetVersion | RtlGetVersionFailed(status: FailureStatus) | Version(info: VersionInfo)

  /** The name for (major, minor, product type); later ifs of the chain
      override earlier ones but never overlap. */
  function OSName(v: VersionInfo, arch: string): string {
    var ws := v.productType == VER_NT_WORKSTATION;
    if v.major == 5 then (if ws then "Windows XP " else "Windows Server 2003 ") + arch
    else if v.major == 6 && v.minor == 0 then (if ws then "Windows Vista " else "Windows Server 2008 ") + arch
    else if v.major == 6 && v.minor == 1 then (if ws then "Windows 7 " else "Windows Server 2008 R2 ") + arch
    else if v.major == 6 && v.minor == 2 then (if ws then "Windows 8 " else "Windows Server 2012 ") + arch
    else if v.major == 6 && v.minor == 3 then (if ws then "Windows 8.1 " else "Windows Server 2012 R2 ") + arch
    else if v.major == 10 && v.minor == 0 then "Windows 10 " + arch
    else "Unknown OS Version"
  }

  function Addendum(v: VersionInfo): string {
    if v.spMajor > 0 || v.spMinor > 0 then
      " Service Pack " + Decimal(v.spMajor) + "." + Decimal(v.spMinor) + " (Build " + Decimal(v.build) + ")"
    else " (Build " + Decimal(v.build) + ")"
  }

  /** GetOSVersion, with Is64BitOS as a parameter. */
  function GetOSVersion(q: VersionQuery, is64BitOS: bool): (r: string)
    ensures q.NoNtdll? ==> r == "Cannot get module handle to ntdll.dll"
    ensures q.NoRtlGetVersion? || q.RtlGetVersionFailed? ==> r == "Cannot invoke \"RtlGetVersion\""
  {
    var arch := if is64BitOS then "(x64)" else "(x86)";
    match q
    case NoNtdll => "Cannot get module handle to ntdll.dll"
    case NoRtlGetVersion => "Cannot invoke \"RtlGetVersion\""
    case RtlGetVersionFailed(_) => "Cannot invoke \"RtlGetVersion\""
    case Version(v) => OSName(v, arch) + Addendum(v)
  }

  predicate KnownVersion(v: VersionInfo) {
    v.major == 5 || (v.major == 6 && v.minor <= 3) || (v.major == 10 && v.minor == 0)
  }

  /** A version outside the table is "Unknown OS Version"; a known one
      names Windows and ends with the architecture. */
  lemma OSNameTable(v: VersionInfo, is64BitOS: bool)
    ensures var arch := if is64BitOS then "(x64)" else "(x86)";
      var n := OSName(v, arch);
      (!KnownVersion(v) <==> n == "Unknown OS Version") &&
      (KnownVersion(v) ==> StartsWith(n, "Windows ") && EndsWith(n, arch))
  {
  }

  /** The addendum names the service pack exactly when one is installed,
      and always ends with the build number. */
  lemma AddendumShape(v: VersionInfo)
    ensures StartsWith(Addendum(v), " Service Pack ") <==> v.spMajor > 0 || v.spMinor > 0
    ensures EndsWith(Addendum(v), " (Build " + Decimal(v.build) + ")")
  {
    var b := " (Build " + Decimal(v.build) + ")";
    if v.spMajor > 0 || v.spMinor > 0 {
      var a := " Service Pack " + Decimal(v.spMajor) + "." + Decimal(v.spMinor);
      assert Addendum(v) == a + b;
      assert Addendum(v)[..14] == " Service Pack ";
    } else {
      assert Addendum(v)[..8] == " (Build ";
      assert Addendum(v)[1] == '(';
    }
  }

}
