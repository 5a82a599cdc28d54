/** The segment list of the memory server as a value: holes, placement, compaction and what the segments hold. */
module SegmentTable {
  import opened Bytes

  datatype Seg = Seg(idProc: int, dirLogica: int, dirFisica: nat, tam: nat, tipo: int) {
    /** First byte behind the segment. */
    function Fin(): nat { dirFisica + tam }

    /** What a CPU names a segment by. */
    function Clave(): (int, int) { (idProc, dirLogica) }
  }

  predicate Apart(x: Seg, y: Seg) {
    x.Fin() <= y.dirFisica || y.Fin() <= x.dirFisica
  }

  /** Every segment lies inside the memory, no two share a byte, and no two share a name. */
  ghost predicate Valid(L: seq<Seg>, total: nat) {
    && (forall x :: x in L ==> x.Fin() <= total)
    && (forall x, y {:trigger Apart(x, y)} :: x in L && y in L && x != y ==> Apart(x, y))
    && (forall x, y {:trigger x.Clave(), y.Clave()} :: x in L && y in L && x.Clave() == y.Clave() ==> x == y)
    && (forall x {:trigger multiset(L)[x]} :: x in L ==> multiset(L)[x] == 1)
  }

  lemma Twice(L: seq<Seg>, i: nat, j: nat)
    requires i < j < |L| && L[i] == L[j]
    ensures multiset(L)[L[i]] >= 2
  {
    assert L == L[..j] + [L[j]] + L[j + 1..];
    assert L[i] in multiset(L[..j]);
  }

  lemma ValidAt(L: seq<Seg>, total: nat, i: nat, j: nat)
    requires Valid(L, total) && i < |L| && j < |L| && i != j
    ensures L[i] != L[j] && Apart(L[i], L[j]) && L[i].Clave() != L[j].Clave()
  {
    if L[i] == L[j] {
      Twice(L, if i < j then i else j, if i < j then j else i);
    }
  }

  lemma ValidPermuted(L: seq<Seg>, M: seq<Seg>, total: nat)
    requires Valid(L, total) && multiset(L) == multiset(M)
    ensures Valid(M, total)
  {
    assert forall x :: x in M ==> x in multiset(L);
  }

  // ---- Sums that no reordering changes ----

  function SumaHasta(L: seq<Seg>, k: nat): nat
    requires k <= |L|
  {
    if k == 0 then 0 else SumaHasta(L, k - 1) + L[k - 1].tam
  }

  /** Bytes in use. */
  function Suma(L: seq<Seg>): nat {
    if L == [] then 0 else Suma(L[..|L| - 1]) + L[|L| - 1].tam
  }

  /** The owner of each segment, one occurrence a segment. */
  ghost function Duenos(L: seq<Seg>): multiset<int> {
    if L == [] then multiset{} else Duenos(L[..|L| - 1]) + multiset{L[|L| - 1].idProc}
  }

  lemma {:induction false} SumaIsSumaHasta(L: seq<Seg>, k: nat)
    requires k <= |L|
    ensures SumaHasta(L, k) == Suma(L[..k])
  {
    if k > 0 {
      SumaIsSumaHasta(L, k - 1);
      assert L[..k][..k - 1] == L[..k - 1];
    }
  }

  lemma SumaTotal(L: seq<Seg>)
    ensures SumaHasta(L, |L|) == Suma(L)
  {
    SumaIsSumaHasta(L, |L|);
    assert L[..|L|] == L;
  }

  lemma SumaAppend(L: seq<Seg>, x: Seg)
    ensures Suma(L + [x]) == Suma(L) + x.tam
    ensures Duenos(L + [x]) == Duenos(L) + multiset{x.idProc}
  {
    assert (L + [x])[..|L|] == L;
  }

  // ---- list_sort by physical address ----

  ghost predicate Sorted(L: seq<Seg>) {
    forall i, j :: 0 <= i < j < |L| ==> L[i].dirFisica <= L[j].dirFisica
  }

  function Insertado(L: seq<Seg>, x: Seg): seq<Seg> {
    var n := |L| - 1;
    if L == [] || L[n].dirFisica <= x.dirFisica then L + [x] else Insertado(L[..n], x) + [L[n]]
  }

  /** The list that `ordenar_lista_seg_por_dir_fisica` leaves. */
  function Ordenada(L: seq<Seg>): seq<Seg> {
    if L == [] then [] else Insertado(Ordenada(L[..|L| - 1]), L[|L| - 1])
  }

  lemma {:induction false} InsertadoKeeps(L: seq<Seg>, x: Seg)
    ensures multiset(Insertado(L, x)) == multiset(L) + multiset{x}
  {
    var n := |L| - 1;
    if L != [] && L[n].dirFisica > x.dirFisica {
      InsertadoKeeps(L[..n], x);
      assert L == L[..n] + [L[n]];
    }
  }

  lemma {:induction false} InsertadoSums(L: seq<Seg>, x: Seg)
    ensures Suma(Insertado(L, x)) == Suma(L) + x.tam
    ensures Duenos(Insertado(L, x)) == Duenos(L) + multiset{x.idProc}
  {
    var n := |L| - 1;
    if L == [] || L[n].dirFisica <= x.dirFisica {
      SumaAppend(L, x);
    } else {
      InsertadoSums(L[..n], x);
      SumaAppend(Insertado(L[..n], x), L[n]);
    }
  }

  lemma {:induction false} InsertadoSorts(L: seq<Seg>, x: Seg)
    requires Sorted(L)
    ensures Sorted(Insertado(L, x))
  {
    var n := |L| - 1;
    if L != [] && L[n].dirFisica > x.dirFisica {
      InsertadoSorts(L[..n], x);
      InsertadoKeeps(L[..n], x);
      var front := Insertado(L[..n], x);
      forall i | 0 <= i < |front|
        ensures front[i].dirFisica <= L[n].dirFisica
      {
        assert front[i] in multiset(front);
      }
    }
  }

  lemma {:induction false} OrdenadaKeeps(L: seq<Seg>)
    ensures multiset(Ordenada(L)) == multiset(L)
  {
    if L != [] {
      var n := |L| - 1;
      OrdenadaKeeps(L[..n]);
      InsertadoKeeps(Ordenada(L[..n]), L[n]);
      assert L == L[..n] + [L[n]];
    }
  }

  lemma {:induction false} OrdenadaSums(L: seq<Seg>)
    ensures Suma(Ordenada(L)) == Suma(L) && Duenos(Ordenada(L)) == Duenos(L)
  {
    if L != [] {
      var n := |L| - 1;
      OrdenadaSums(L[..n]);
      InsertadoSums(Ordenada(L[..n]), L[n]);
    }
  }

  lemma {:induction false} OrdenadaSorts(L: seq<Seg>)
    ensures Sorted(Ordenada(L))
  {
    if L != [] {
      var n := |L| - 1;
      OrdenadaSorts(L[..n]);
      InsertadoSorts(Ordenada(L[..n]), L[n]);
    }
  }

  /** What a caller of `list_sort` gets: the same segments in address order, and an ordered list untouched.
      Which of two segments at the same address (one of them empty) comes first is left open. */
  ghost predicate Reordered(L: seq<Seg>, M: seq<Seg>) {
    && multiset(M) == multiset(L) && Suma(M) == Suma(L) && Duenos(M) == Duenos(L)
    && Sorted(M) && (Sorted(L) ==> M == L)
  }

  lemma OrdenadaReorders(L: seq<Seg>)
    ensures Reordered(L, Ordenada(L))
  {
    OrdenadaKeeps(L);
    OrdenadaSums(L);
    OrdenadaSorts(L);
    if Sorted(L) {
      SortedIsKept(L);
    }
  }

  lemma {:induction false} SortedIsKept(L: seq<Seg>)
    requires Sorted(L)
    ensures Ordenada(L) == L
  {
    if L != [] {
      var n := |L| - 1;
      SortedIsKept(L[..n]);
      assert L == L[..n] + [L[n]];
    }
  }

  // ---- Holes of a sorted list ----

  /** `ind_mem` after the first `k` segments have been walked over. */
  function Cursor(L: seq<Seg>, k: nat): nat
    requires k <= |L|
  {
    if k == 0 then 0 else Max(Cursor(L, k - 1), L[k - 1].dirFisica) + L[k - 1].tam
  }

  /** Bytes of the hole in front of segment `k`, or of the tail when `k` is the length. */
  function Hueco(L: seq<Seg>, total: nat, k: nat): int
    requires k <= |L|
  {
    if k < |L| then Max(0, L[k].dirFisica - Cursor(L, k)) else total - Cursor(L, k)
  }

  /** The cursor is the end of some segment, past all segments walked over, and in front of all
      the non-empty ones still to come. */
  lemma {:induction false} CursorPlace(L: seq<Seg>, total: nat, k: nat)
    requires k <= |L| && Sorted(L) && Valid(L, total)
    ensures forall i :: 0 <= i < k ==> L[i].Fin() <= Cursor(L, k)
    ensures forall j :: k <= j < |L| && L[j].tam > 0 ==> Cursor(L, k) <= L[j].dirFisica
    ensures Cursor(L, k) == 0 || exists i :: 0 <= i < k && L[i].Fin() == Cursor(L, k)
    ensures Cursor(L, k) <= total
  {
    if k > 0 {
      CursorPlace(L, total, k - 1);
      if L[k - 1].dirFisica >= Cursor(L, k - 1) {
        assert L[k - 1].Fin() == Cursor(L, k);
      }
      if Cursor(L, k) != 0 {
        var i :| 0 <= i < k && L[i].Fin() == Cursor(L, k);
        forall j | k <= j < |L| && L[j].tam > 0
          ensures Cursor(L, k) <= L[j].dirFisica
        {
          ValidAt(L, total, i, j);
        }
      }
    }
  }

  lemma HoleIsApart(L: seq<Seg>, total: nat, k: nat, x: Seg, y: Seg)
    requires k <= |L| && Sorted(L) && Valid(L, total)
    requires x.dirFisica == Cursor(L, k) && x.tam <= Hueco(L, total, k)
    requires k < |L| ==> x.tam < Hueco(L, total, k)
    requires y in L
    ensures Apart(x, y)
  {
    CursorPlace(L, total, k);
    var i :| 0 <= i < |L| && L[i] == y;
    if k < |L| {
      assert L[k] in L;
      if i >= k {
        assert L[k].dirFisica <= L[i].dirFisica;
      }
    }
  }

  /** A segment placed at the start of a hole it fits in leaves the table valid. */
  lemma HoleIsFree(L: seq<Seg>, total: nat, k: nat, x: Seg)
    requires k <= |L| && Sorted(L) && Valid(L, total)
    requires x.dirFisica == Cursor(L, k) && x.tam <= Hueco(L, total, k)
    requires k < |L| ==> x.tam < Hueco(L, total, k)
    requires forall y :: y in L ==> y.Clave() != x.Clave()
    ensures Valid(L + [x], total)
  {
    hide Cursor, Sorted, Apart;
    CursorPlace(L, total, k);
    if k < |L| {
      assert L[k] in L;
    }
    forall y | y in L
      ensures Apart(x, y) && Apart(y, x)
    {
      HoleIsApart(L, total, k, x, y);
      ApartBothWays(x, y);
    }
  }

  lemma ApartBothWays(x: Seg, y: Seg)
    ensures Apart(x, y) <==> Apart(y, x)
  {
  }

  /** The cursor has passed every byte in use and every hole in front of it. */
  lemma {:induction false} CursorVolume(L: seq<Seg>, total: nat, j: nat, k: nat)
    requires j <= k <= |L|
    ensures SumaHasta(L, k) + (if j < k then Hueco(L, total, j) else 0) <= Cursor(L, k)
    decreases k
  {
    if k > 0 {
      CursorVolume(L, total, if j < k then j else k - 1, k - 1);
    }
  }

  /** A hole never exceeds the free bytes. */
  lemma HoleWithinFree(L: seq<Seg>, total: nat, k: nat)
    requires k <= |L| && Sorted(L) && Valid(L, total)
    ensures Hueco(L, total, k) <= total - Suma(L)
    ensures Suma(L) <= total
  {
    CursorVolume(L, total, k, |L|);
    CursorPlace(L, total, |L|);
    SumaTotal(L);
  }

  // ---- Placement ----

  const FIRST_FIT := 1

  /** The lowest inner hole strictly larger than the request, else the tail if the request fits there. */
  ghost predicate FirstFit(L: seq<Seg>, total: nat, tam: nat, r: int) {
    || (exists k :: 0 <= k < |L| && Hueco(L, total, k) > tam && r == Cursor(L, k)
                    && forall j :: 0 <= j < k ==> Hueco(L, total, j) <= tam)
    || ((forall j :: 0 <= j < |L| ==> Hueco(L, total, j) <= tam)
        && r == if tam <= Hueco(L, total, |L|) then Cursor(L, |L|) else -1)
  }

  /** The largest hole; the tail wins ties, then the lowest address; an inner hole must exceed the request. */
  ghost predicate WorstFit(L: seq<Seg>, total: nat, tam: nat, r: int) {
    var tail := Hueco(L, total, |L|);
    || ((forall j :: 0 <= j < |L| ==> Hueco(L, total, j) <= tail)
        && r == if tam <= tail then Cursor(L, |L|) else -1)
    || (exists k :: 0 <= k < |L| && tail < Hueco(L, total, k)
                    && (forall j :: 0 <= j < |L| ==> Hueco(L, total, j) <= Hueco(L, total, k))
                    && (forall j :: 0 <= j < k ==> Hueco(L, total, j) < Hueco(L, total, k))
                    && r == if tam < Hueco(L, total, k) then Cursor(L, k) else -1)
  }

  ghost predicate Placement(alg: int, L: seq<Seg>, total: nat, tam: nat, r: int) {
    if alg == FIRST_FIT then FirstFit(L, total, tam, r) else WorstFit(L, total, tam, r)
  }

  /** A placement other than -1 is the start of a hole with room for the request. */
  lemma PlacementIsAHole(alg: int, L: seq<Seg>, total: nat, tam: nat, r: int) returns (k: nat)
    requires Sorted(L) && Valid(L, total) && Placement(alg, L, total, tam, r) && r != -1
    ensures k <= |L| && r == Cursor(L, k) && tam <= Hueco(L, total, k) && (k < |L| ==> tam < Hueco(L, total, k))
    ensures tam <= total - Suma(L)
  {
    if i :| 0 <= i < |L| && r == Cursor(L, i) && tam < Hueco(L, total, i) {
      k := i;
    } else {
      k := |L|;
    }
    HoleWithinFree(L, total, k);
  }

  /** Two answers of the same search agree: the policy leaves no choice. */
  lemma PlacementIsUnique(alg: int, L: seq<Seg>, total: nat, tam: nat, r: int, s: int)
    requires Placement(alg, L, total, tam, r) && Placement(alg, L, total, tam, s)
    ensures r == s
  {
  }

  // ---- Compaction ----

  /** The list `compactar` leaves: same order, same names, sizes and types, packed from address 0. */
  function Compactada(L: seq<Seg>): (r: seq<Seg>)
    ensures |r| == |L|
  {
    seq(|L|, i requires 0 <= i < |L| => L[i].(dirFisica := SumaHasta(L, i)))
  }

  /** Whether entry `i` of `M` is where compaction puts segment `i` of `L`. */
  ghost predicate Placed(L: seq<Seg>, M: seq<Seg>, i: nat)
    requires i < |L| == |M|
  {
    M[i] == L[i].(dirFisica := SumaHasta(L, i))
  }

  /** The list part way through compaction: `i` entries replaced, the others untouched. */
  ghost predicate PlacedUpTo(L: seq<Seg>, M: seq<Seg>, i: nat) {
    && i <= |L| == |M|
    && (forall j {:trigger Placed(L, M, j)} :: 0 <= j < i ==> Placed(L, M, j))
    && (forall j :: i <= j < |L| ==> M[j] == L[j])
  }

  lemma PlacedStep(L: seq<Seg>, M: seq<Seg>, i: nat, dir: nat)
    requires PlacedUpTo(L, M, i) && i < |L| && dir == SumaHasta(L, i)
    ensures PlacedUpTo(L, M[i := L[i].(dirFisica := dir)], i + 1)
    ensures M[i].dirFisica == dir ==> PlacedUpTo(L, M, i + 1)
  {
    var N := M[i := L[i].(dirFisica := dir)];
    forall j | 0 <= j < i
      ensures Placed(L, N, j)
    {
      assert Placed(L, M, j);
    }
  }

  lemma PlacedAll(L: seq<Seg>, M: seq<Seg>)
    requires PlacedUpTo(L, M, |L|)
    ensures M == Compactada(L)
  {
    forall j | 0 <= j < |L|
      ensures M[j] == Compactada(L)[j]
    {
      assert Placed(L, M, j);
    }
  }

  /** Whether compaction gives segment `i` another address: the guard of the branch that copies. */
  predicate Moves(L: seq<Seg>, i: nat)
    requires i < |L|
  {
    L[i].dirFisica != SumaHasta(L, i)
  }

  ghost predicate Packed(L: seq<Seg>) {
    forall i {:trigger Moves(L, i)} :: 0 <= i < |L| ==> !Moves(L, i)
  }

  lemma {:induction false} SumaHastaSame(L: seq<Seg>, M: seq<Seg>, k: nat)
    requires k <= |L| && k <= |M| && forall i :: 0 <= i < k ==> L[i].tam == M[i].tam
    ensures SumaHasta(L, k) == SumaHasta(M, k)
  {
    if k > 0 {
      SumaHastaSame(L, M, k - 1);
    }
  }

  lemma {:induction false} DuenosSame(L: seq<Seg>, M: seq<Seg>)
    requires |L| == |M| && forall i :: 0 <= i < |L| ==> L[i].idProc == M[i].idProc
    ensures Duenos(L) == Duenos(M)
  {
    if L != [] {
      DuenosSame(L[..|L| - 1], M[..|M| - 1]);
    }
  }

  lemma {:induction false} SumaHastaGrows(L: seq<Seg>, i: nat, k: nat)
    requires i < k <= |L|
    ensures SumaHasta(L, i) + L[i].tam <= SumaHasta(L, k)
  {
    if i < k - 1 {
      SumaHastaGrows(L, i, k - 1);
    }
  }

  lemma {:induction false} DistinctOnce(L: seq<Seg>)
    requires forall i, j :: 0 <= i < j < |L| ==> L[i] != L[j]
    ensures forall x :: x in L ==> multiset(L)[x] == 1
  {
    if L != [] {
      var n := |L| - 1;
      DistinctOnce(L[..n]);
      assert L == L[..n] + [L[n]];
      assert L[n] !in L[..n];
    }
  }

  lemma CompactedSum(L: seq<Seg>, k: nat)
    requires k <= |L|
    ensures SumaHasta(Compactada(L), k) == SumaHasta(L, k)
  {
    SumaHastaSame(L, Compactada(L), k);
  }

  lemma CompactedSums(L: seq<Seg>)
    ensures Packed(Compactada(L)) && Suma(Compactada(L)) == Suma(L) && Duenos(Compactada(L)) == Duenos(L)
  {
    var M := Compactada(L);
    forall i | 0 <= i < |L|
      ensures !Moves(M, i)
    {
      CompactedSum(L, i);
    }
    CompactedSum(L, |L|);
    SumaTotal(L);
    SumaTotal(M);
    DuenosSame(L, M);
  }

  lemma PackedApart(L: seq<Seg>, i: nat, j: nat)
    requires Packed(L) && i < j < |L|
    ensures L[i].Fin() <= L[j].dirFisica
  {
    assert !Moves(L, i) && !Moves(L, j);
    SumaHastaGrows(L, i, j);
  }

  /** A packed table whose sizes fit is sorted and its segments do not overlap. */
  lemma PackedIsValid(L: seq<Seg>, total: nat)
    requires Packed(L) && Suma(L) <= total
    requires forall i, j :: 0 <= i < j < |L| ==> L[i].Clave() != L[j].Clave()
    ensures Sorted(L) && Valid(L, total)
  {
    SumaTotal(L);
    forall i, j | 0 <= i < j < |L|
      ensures L[i].Fin() <= L[j].dirFisica
    {
      PackedApart(L, i, j);
    }
    forall i | 0 <= i < |L|
      ensures L[i].Fin() <= total
    {
      assert !Moves(L, i);
      SumaHastaGrows(L, i, |L|);
    }
    DistinctOnce(L);
  }

  /** Compaction packs the table in its physical order, keeps it valid, keeps what is in use, and
      running it again changes nothing. */
  lemma CompactedTable(L: seq<Seg>, total: nat)
    requires Sorted(L) && Valid(L, total)
    ensures Sorted(Compactada(L)) && Valid(Compactada(L), total) && Packed(Compactada(L))
    ensures Suma(Compactada(L)) == Suma(L) && Duenos(Compactada(L)) == Duenos(L)
    ensures Compactada(Compactada(L)) == Compactada(L)
  {
    var M := Compactada(L);
    CompactedSums(L);
    forall i, j | 0 <= i < j < |M|
      ensures M[i].Clave() != M[j].Clave()
    {
      ValidAt(L, total, i, j);
    }
    HoleWithinFree(L, total, |L|);
    PackedIsValid(M, total);
    forall i | 0 <= i < |M|
      ensures Compactada(M)[i] == M[i]
    {
      assert !Moves(M, i);
    }
  }

  /** In a packed table the only hole is the tail, and it holds all the free bytes. */
  lemma {:induction false} PackedCursor(L: seq<Seg>, k: nat)
    requires Packed(L) && k <= |L|
    ensures Cursor(L, k) == SumaHasta(L, k)
  {
    if k > 0 {
      PackedCursor(L, k - 1);
      assert !Moves(L, k - 1);
    }
  }

  lemma PackedHoles(L: seq<Seg>, total: nat)
    requires Packed(L) && Suma(L) <= total
    ensures forall k :: 0 <= k < |L| ==> Hueco(L, total, k) == 0
    ensures Hueco(L, total, |L|) == total - Suma(L)
  {
    forall k | 0 <= k < |L|
      ensures Hueco(L, total, k) == 0
    {
      PackedCursor(L, k);
      assert !Moves(L, k);
    }
    PackedCursor(L, |L|);
    SumaTotal(L);
  }

  /** Despite the strict test on inner holes, a search that failed and is repeated after compaction
      finds room exactly when the request is at most the free bytes. */
  lemma SearchAfterCompaction(alg: int, L: seq<Seg>, total: nat, tam: nat, r: int)
    requires Sorted(L) && Valid(L, total)
    requires Placement(alg, Compactada(L), total, tam, r)
    ensures r == if tam <= total - Suma(L) then Suma(L) else -1
  {
    var M := Compactada(L);
    CompactedTable(L, total);
    HoleWithinFree(L, total, |L|);
    PackedHoles(M, total);
    PackedCursor(M, |M|);
    SumaTotal(M);
  }

  // ---- What the segments hold ----

  type Nombre = (int, int)
  type Almacen = map<Nombre, seq<byte>>

  ghost function Claves(L: seq<Seg>): set<Nombre> {
    set x | x in L :: x.Clave()
  }

  ghost function SegDe(L: seq<Seg>, k: Nombre): (x: Seg)
    requires k in Claves(L)
    ensures x in L && x.Clave() == k
  {
    var x :| x in L && x.Clave() == k;
    x
  }

  function Tramo(mem: seq<byte>, x: Seg): (r: seq<byte>)
    requires x.Fin() <= |mem|
    ensures |r| == x.tam
  {
    mem[x.dirFisica..x.Fin()]
  }

  /** The memory as its clients see it: the bytes of each segment by owner and logical address. */
  ghost function Contenido(L: seq<Seg>, mem: seq<byte>): Almacen
    requires Valid(L, |mem|)
  {
    map k | k in Claves(L) :: Tramo(mem, SegDe(L, k))
  }

  lemma ContenidoAt(L: seq<Seg>, mem: seq<byte>, x: Seg)
    requires Valid(L, |mem|) && x in L
    ensures x.Clave() in Contenido(L, mem) && Contenido(L, mem)[x.Clave()] == Tramo(mem, x)
  {
    assert SegDe(L, x.Clave()) == x;
  }

  lemma InsideMemory(L: seq<Seg>, total: nat, x: Seg)
    requires Valid(L, total) && x in L
    ensures x.Fin() <= total
  {
  }

  lemma TramoPart(mem: seq<byte>, x: Seg, off: nat, n: nat)
    requires x.Fin() <= |mem| && off + n <= x.tam
    ensures Tramo(mem, x)[off..off + n] == mem[x.dirFisica + off..x.dirFisica + off + n]
  {
    SliceOfSlice(mem, x.dirFisica, x.Fin(), off, off + n);
  }

  lemma InPermuted(L: seq<Seg>, M: seq<Seg>, x: Seg)
    requires multiset(L) == multiset(M)
    ensures x in L <==> x in M
  {
    assert x in L <==> x in multiset(L);
    assert x in M <==> x in multiset(M);
  }

  lemma ContenidoPermuted(L: seq<Seg>, M: seq<Seg>, mem: seq<byte>)
    requires Valid(L, |mem|) && multiset(L) == multiset(M)
    ensures Valid(M, |mem|) && Contenido(M, mem) == Contenido(L, mem) && Claves(M) == Claves(L)
  {
    ValidPermuted(L, M, |mem|);
    forall k | k in Claves(L)
      ensures k in Claves(M) && Contenido(M, mem)[k] == Contenido(L, mem)[k]
    {
      InPermuted(L, M, SegDe(L, k));
      ContenidoAt(M, mem, SegDe(L, k));
    }
    forall k | k in Claves(M)
      ensures k in Claves(L)
    {
      InPermuted(L, M, SegDe(M, k));
    }
  }

  lemma TramoOther(mem: seq<byte>, at: nat, b: seq<byte>, y: Seg)
    requires at + |b| <= |mem| && y.Fin() <= |mem|
    requires at + |b| <= y.dirFisica || y.Fin() <= at || |b| == 0
    ensures Tramo(Splice(mem, at, b), y) == Tramo(mem, y)
  {
    var after := Splice(mem, at, b);
    forall i | 0 <= i < y.tam
      ensures Tramo(after, y)[i] == Tramo(mem, y)[i]
    {
      assert Tramo(after, y)[i] == after[y.dirFisica + i];
      assert Tramo(mem, y)[i] == mem[y.dirFisica + i];
    }
  }

  lemma TramoSame(mem: seq<byte>, x: Seg, off: nat, b: seq<byte>)
    requires x.Fin() <= |mem| && off + |b| <= x.tam
    ensures Tramo(Splice(mem, x.dirFisica + off, b), x) == Splice(Tramo(mem, x), off, b)
  {
    var after := Splice(mem, x.dirFisica + off, b);
    forall i | 0 <= i < x.tam
      ensures Tramo(after, x)[i] == Splice(Tramo(mem, x), off, b)[i]
    {
      assert Tramo(after, x)[i] == after[x.dirFisica + i];
      assert Tramo(mem, x)[i] == mem[x.dirFisica + i];
    }
  }

  lemma TramoWritten(mem: seq<byte>, x: Seg, off: nat, b: seq<byte>, y: Seg)
    requires x.Fin() <= |mem| && y.Fin() <= |mem| && off + |b| <= x.tam
    requires x == y || Apart(x, y)
    ensures Tramo(Splice(mem, x.dirFisica + off, b), y) == if x == y then Splice(Tramo(mem, x), off, b) else Tramo(mem, y)
  {
    hide Tramo, Splice;
    if x == y {
      TramoSame(mem, x, off, b);
    } else if y.tam > 0 {
      TramoOther(mem, x.dirFisica + off, b, y);
    } else {
      TramoEmpty(Splice(mem, x.dirFisica + off, b), mem, y);
    }
  }

  lemma TramoEmpty(mem: seq<byte>, otra: seq<byte>, y: Seg)
    requires y.Fin() <= |mem| && y.Fin() <= |otra| && y.tam == 0
    ensures Tramo(mem, y) == Tramo(otra, y)
  {
  }

  /** Writing inside one segment changes that entry of the store and no other. */
  lemma ContenidoWritten(L: seq<Seg>, mem: seq<byte>, x: Seg, off: nat, b: seq<byte>)
    requires Valid(L, |mem|) && x in L && off + |b| <= x.tam
    ensures x.Clave() in Contenido(L, mem) && off + |b| <= |Contenido(L, mem)[x.Clave()]|
    ensures Contenido(L, Splice(mem, x.dirFisica + off, b))
         == Contenido(L, mem)[x.Clave() := Splice(Contenido(L, mem)[x.Clave()], off, b)]
  {
    var mem' := Splice(mem, x.dirFisica + off, b);
    ContenidoAt(L, mem, x);
    var was, now := Contenido(L, mem), Contenido(L, mem');
    forall k | k in Claves(L)
      ensures now[k] == if k == x.Clave() then Splice(was[k], off, b) else was[k]
    {
      TramoWritten(mem, x, off, b, SegDe(L, k));
    }
  }

  lemma ClavesAppend(L: seq<Seg>, x: Seg)
    ensures Claves(L + [x]) == Claves(L) + {x.Clave()}
  {
    assert forall y :: y in L + [x] <==> y in L || y == x;
  }

  lemma ContenidoAppended(L: seq<Seg>, mem: seq<byte>, x: Seg)
    requires Valid(L, |mem|) && Valid(L + [x], |mem|)
    requires forall y :: y in L ==> y.Clave() != x.Clave()
    ensures Contenido(L + [x], mem) == Contenido(L, mem)[x.Clave() := Tramo(mem, x)]
  {
    ContenidoAt(L + [x], mem, x);
    forall y | y in L
      ensures Contenido(L + [x], mem)[y.Clave()] == Contenido(L, mem)[y.Clave()]
    {
      ContenidoAt(L, mem, y);
      ContenidoAt(L + [x], mem, y);
    }
    assert Claves(L + [x]) == Claves(L) + {x.Clave()};
  }

  /** A segment added at the start of a hole: the table stays valid and the store gains one entry. */
  lemma Appended(L: seq<Seg>, mem: seq<byte>, k: nat, x: Seg)
    requires k <= |L| && Sorted(L) && Valid(L, |mem|) && x.Clave() !in Claves(L)
    requires x.dirFisica == Cursor(L, k) && x.tam <= Hueco(L, |mem|, k)
    requires k < |L| ==> x.tam < Hueco(L, |mem|, k)
    ensures Valid(L + [x], |mem|) && x.Fin() <= |mem|
    ensures Contenido(L + [x], mem) == Contenido(L, mem)[x.Clave() := Tramo(mem, x)]
    ensures Suma(L + [x]) == Suma(L) + x.tam && Duenos(L + [x]) == Duenos(L) + multiset{x.idProc}
    ensures Claves(L + [x]) == Claves(L) + {x.Clave()}
  {
    forall y | y in L
      ensures y.Clave() != x.Clave()
    {
      assert y.Clave() in Claves(L);
    }
    HoleIsFree(L, |mem|, k, x);
    assert x in L + [x];
    ContenidoAppended(L, mem, x);
    SumaAppend(L, x);
    ClavesAppend(L, x);
  }

  /** The bytes at `&aux_seg` when iteration `i` copies from there: stack contents nobody controls. */
  type Residuo = (nat, nat) -> byte

  function PilaBytes(pila: Residuo, i: nat, tam: nat): (r: seq<byte>)
    ensures |r| == tam
  {
    seq(tam, k requires 0 <= k < tam => pila(i, k))
  }

  ghost function Indice(L: seq<Seg>, k: Nombre): (i: nat)
    requires k in Claves(L)
    ensures i < |L| && L[i].Clave() == k
  {
    var i :| 0 <= i < |L| && L[i].Clave() == k;
    i
  }

  /** The bytes that end up in each packed place when `compactar` runs as written: a segment that moves is
      filled with stack bytes. */
  ghost function Copiado(L: seq<Seg>, mem: seq<byte>, pila: Residuo): (held: seq<seq<byte>>)
    requires Valid(L, |mem|)
    ensures |held| == |L|
  {
    seq(|L|, i requires 0 <= i < |L| =>
      assert L[i] in L; if Moves(L, i) then PilaBytes(pila, i, L[i].tam) else Tramo(mem, L[i]))
  }

  /** A store with the names and sizes of a table. */
  ghost predicate DeLaTabla(A: Almacen, L: seq<Seg>) {
    A.Keys == Claves(L) && forall x :: x in L ==> |A[x.Clave()]| == x.tam
  }

  lemma ContenidoFits(L: seq<Seg>, mem: seq<byte>)
    requires Valid(L, |mem|)
    ensures DeLaTabla(Contenido(L, mem), L)
  {
    forall x | x in L
      ensures |Contenido(L, mem)[x.Clave()]| == x.tam
    {
      ContenidoAt(L, mem, x);
    }
  }

  /** What a store becomes when its table is compacted as written. */
  ghost function Revuelto(L: seq<Seg>, A: Almacen, pila: Residuo): Almacen
    requires Claves(L) <= A.Keys
  {
    map k | k in Claves(L) ::
      if Moves(L, Indice(L, k)) then PilaBytes(pila, Indice(L, k), L[Indice(L, k)].tam) else A[k]
  }

  /** No non-empty segment has to move. */
  predicate AlreadyPacked(L: seq<Seg>) {
    forall i {:trigger Moves(L, i)} :: 0 <= i < |L| && L[i].tam > 0 ==> !Moves(L, i)
  }

  lemma PackedStaysVisible(L: seq<Seg>, A: Almacen, pila: Residuo)
    requires DeLaTabla(A, L) && AlreadyPacked(L)
    ensures Revuelto(L, A, pila) == A
  {
    forall k | k in Claves(L)
      ensures Revuelto(L, A, pila)[k] == A[k]
    {
      var i := Indice(L, k);
      assert L[i] in L;
      if L[i].tam == 0 {
        assert A[k] == [] == PilaBytes(pila, i, 0);
      }
    }
  }

  /** A non-empty segment that moves is lost for some stack contents. */
  lemma MovedIsLost(L: seq<Seg>, total: nat, A: Almacen, i: nat) returns (pila: Residuo)
    requires Valid(L, total) && DeLaTabla(A, L) && i < |L| && L[i].tam > 0 && Moves(L, i)
    ensures L[i].Clave() in Claves(L) && Revuelto(L, A, pila)[L[i].Clave()] != A[L[i].Clave()]
  {
    var c := L[i].Clave();
    assert L[i] in L;
    var other: byte := if A[c][0] == 0 then 1 else 0;
    pila := (j, k) => other;
    if Indice(L, c) != i {
      ValidAt(L, total, i, Indice(L, c));
    }
    assert PilaBytes(pila, i, L[i].tam)[0] != A[c][0];
  }

  /** As written, compaction is invisible to readers whatever the stack holds if and only if every
      non-empty segment is already in its packed place. */
  lemma CompactionInvisibleIffPacked(L: seq<Seg>, total: nat, A: Almacen)
    requires Valid(L, total) && DeLaTabla(A, L)
    ensures AlreadyPacked(L) <==> forall pila: Residuo :: Revuelto(L, A, pila) == A
  {
    if AlreadyPacked(L) {
      forall pila: Residuo
        ensures Revuelto(L, A, pila) == A
      {
        PackedStaysVisible(L, A, pila);
      }
    } else {
      var i :| 0 <= i < |L| && L[i].tam > 0 && Moves(L, i);
      var pila := MovedIsLost(L, total, A, i);
    }
  }

  /** A table on which it shows: one byte of memory in front of a one-byte segment. */
  lemma CompactionLosesBytes(b: byte, pila: Residuo)
    ensures var L, A := [Seg(1, 7, 1, 1, 0)], map[(1, 7) := [b]];
            && Valid(L, 2) && DeLaTabla(A, L) && !AlreadyPacked(L)
            && Revuelto(L, A, pila) == map[(1, 7) := [pila(0, 0)]]
  {
    var L := [Seg(1, 7, 1, 1, 0)];
    DistinctOnce(L);
    assert Moves(L, 0);
    assert L[0] in L && Claves(L) == {(1, 7)};
    assert PilaBytes(pila, 0, 1) == [pila(0, 0)];
  }

  lemma CompactedNames(L: seq<Seg>)
    ensures Claves(Compactada(L)) == Claves(L)
  {
    var M := Compactada(L);
    forall k | k in Claves(L)
      ensures k in Claves(M)
    {
      assert M[Indice(L, k)] in M;
    }
    forall k | k in Claves(M)
      ensures k in Claves(L)
    {
      assert L[Indice(M, k)] in L;
    }
  }

  /** Once each packed place holds the bytes `held`, so does the store. */
  lemma CompactedStore(L: seq<Seg>, now: seq<byte>, held: seq<seq<byte>>)
    requires |held| == |L| && Valid(Compactada(L), |now|)
    requires forall i :: 0 <= i < |L| ==> Compactada(L)[i].Fin() <= |now| && Tramo(now, Compactada(L)[i]) == held[i]
    ensures Contenido(Compactada(L), now) == map k | k in Claves(L) :: held[Indice(L, k)]
  {
    var M := Compactada(L);
    CompactedNames(L);
    forall k | k in Claves(L)
      ensures Contenido(M, now)[k] == held[Indice(L, k)]
    {
      ContenidoAt(M, now, M[Indice(L, k)]);
    }
  }

  /** Where compaction puts segment `i` there is room, and none of the bytes still to be moved. */
  lemma PackedPlace(L: seq<Seg>, total: nat, i: nat)
    requires i < |L| && Sorted(L) && Valid(L, total)
    ensures SumaHasta(L, i) + L[i].tam <= total
    ensures L[i].tam > 0 ==> SumaHasta(L, i) <= L[i].dirFisica
  {
    SumaHastaGrows(L, i, |L|);
    HoleWithinFree(L, total, |L|);
    SumaTotal(L);
    CursorVolume(L, total, i, i);
    CursorPlace(L, total, i);
  }

  /** The first `i` packed places hold their bytes. */
  ghost predicate Filled(M: seq<Seg>, i: nat, mem: seq<byte>, held: seq<seq<byte>>)
    requires i <= |M| == |held|
  {
    forall j :: 0 <= j < i ==> M[j].Fin() <= |mem| && Tramo(mem, M[j]) == held[j]
  }

  /** `now` is `was` from position `d` on. */
  ghost predicate SameFrom(was: seq<byte>, now: seq<byte>, d: nat) {
    |now| == |was| && forall x :: d <= x < |was| ==> now[x] == was[x]
  }

  /** Compaction half way: the first `i` places are filled and nothing above them has been touched. */
  ghost predicate HalfWay(L: seq<Seg>, i: nat, was: seq<byte>, now: seq<byte>, held: seq<seq<byte>>) {
    && i <= |L| == |held|
    && SameFrom(was, now, SumaHasta(L, i))
    && Filled(Compactada(L), i, now, held)
  }

  lemma CompactionStarts(L: seq<Seg>, was: seq<byte>, held: seq<seq<byte>>)
    requires |held| == |L|
    ensures PlacedUpTo(L, L, 0) && HalfWay(L, 0, was, was, held)
  {
  }

  lemma CopiadoAt(L: seq<Seg>, was: seq<byte>, pila: Residuo, i: nat)
    requires Valid(L, |was|) && i < |L|
    ensures L[i].Fin() <= |was|
    ensures Copiado(L, was, pila)[i] == if Moves(L, i) then PilaBytes(pila, i, L[i].tam) else Tramo(was, L[i])
  {
    assert L[i] in L;
  }

  lemma TramosAt(L: seq<Seg>, was: seq<byte>, i: nat)
    requires Valid(L, |was|) && i < |L|
    ensures L[i].Fin() <= |was| && Tramos(L, was)[i] == Tramo(was, L[i])
  {
    assert L[i] in L;
  }

  lemma SpliceBelow(s: seq<byte>, off: nat, b: seq<byte>, lo: nat, hi: nat)
    requires lo <= hi <= off && off + |b| <= |s|
    ensures Splice(s, off, b)[lo..hi] == s[lo..hi]
  {
  }

  lemma FilledStep(M: seq<Seg>, i: nat, now: seq<byte>, held: seq<seq<byte>>)
    requires i < |M| == |held| && Packed(M) && Filled(M, i, now, held)
    requires M[i].Fin() <= |now| && |held[i]| == M[i].tam
    ensures Filled(M, i + 1, Splice(now, M[i].dirFisica, held[i]), held)
  {
    var after := Splice(now, M[i].dirFisica, held[i]);
    forall j | 0 <= j < i
      ensures M[j].Fin() <= |after| && Tramo(after, M[j]) == held[j]
    {
      PackedApart(M, j, i);
      SpliceBelow(now, M[i].dirFisica, held[i], M[j].dirFisica, M[j].Fin());
    }
    assert Tramo(after, M[i]) == held[i];
  }

  lemma HalfWayStep(L: seq<Seg>, i: nat, was: seq<byte>, now: seq<byte>, held: seq<seq<byte>>)
    requires i < |L| && Sorted(L) && Valid(L, |was|)
    requires HalfWay(L, i, was, now, held) && |held[i]| == L[i].tam
    ensures SumaHasta(L, i) + |held[i]| <= |now|
    ensures HalfWay(L, i + 1, was, Splice(now, SumaHasta(L, i), held[i]), held)
  {
    PackedPlace(L, |was|, i);
    CompactedSums(L);
    CompactedSum(L, i);
    FilledStep(Compactada(L), i, now, held);
  }

  /** Before its turn a segment is intact where it was. */
  lemma HalfWaySource(L: seq<Seg>, i: nat, was: seq<byte>, now: seq<byte>)
    requires i < |L| && Sorted(L) && Valid(L, |was|) && SameFrom(was, now, SumaHasta(L, i))
    ensures L[i].Fin() <= |now| && L[i].Fin() <= |was|
    ensures Tramo(now, L[i]) == Tramo(was, L[i])
  {
    assert L[i] in L;
    PackedPlace(L, |was|, i);
  }

  /** Copying a stretch over itself changes nothing. */
  lemma SpliceSame(s: seq<byte>, off: nat, n: nat)
    requires off + n <= |s|
    ensures Splice(s, off, s[off..off + n]) == s
  {
  }

  /** The bytes of each segment in list order. */
  ghost function Tramos(L: seq<Seg>, mem: seq<byte>): (held: seq<seq<byte>>)
    requires Valid(L, |mem|)
    ensures |held| == |L|
  {
    seq(|L|, i requires 0 <= i < |L| => assert L[i] in L; Tramo(mem, L[i]))
  }

  lemma StoreByIndex(L: seq<Seg>, mem: seq<byte>)
    requires Valid(L, |mem|)
    ensures Contenido(L, mem) == map k | k in Claves(L) :: Tramos(L, mem)[Indice(L, k)]
  {
    forall k | k in Claves(L)
      ensures Contenido(L, mem)[k] == Tramos(L, mem)[Indice(L, k)]
    {
      ContenidoAt(L, mem, L[Indice(L, k)]);
    }
  }

  /** The bytes written to the packed places make up the scrambled store. */
  lemma ScrambledStore(L: seq<Seg>, was: seq<byte>, pila: Residuo, k: Nombre)
    requires Valid(L, |was|) && k in Claves(L)
    ensures Claves(L) <= Contenido(L, was).Keys
    ensures Copiado(L, was, pila)[Indice(L, k)] == Revuelto(L, Contenido(L, was), pila)[k]
  {
    ContenidoAt(L, was, L[Indice(L, k)]);
  }

  lemma PackedStore(L: seq<Seg>, was: seq<byte>, now: seq<byte>, held: seq<seq<byte>>)
    requires Sorted(L) && Valid(L, |was|) && HalfWay(L, |L|, was, now, held)
    ensures Valid(Compactada(L), |now|)
    ensures Contenido(Compactada(L), now) == map k | k in Claves(L) :: held[Indice(L, k)]
  {
    CompactedTable(L, |was|);
    CompactedStore(L, now, held);
  }

  lemma SameScramble(L: seq<Seg>, was: seq<byte>, pila: Residuo)
    requires Valid(L, |was|) && Claves(L) <= Contenido(L, was).Keys
    ensures (map k | k in Claves(L) :: Copiado(L, was, pila)[Indice(L, k)]) == Revuelto(L, Contenido(L, was), pila)
  {
    forall k | k in Claves(L)
      ensures Copiado(L, was, pila)[Indice(L, k)] == Revuelto(L, Contenido(L, was), pila)[k]
    {
      ScrambledStore(L, was, pila, k);
    }
  }

  lemma AllScrambled(L: seq<Seg>, was: seq<byte>, now: seq<byte>, pila: Residuo)
    requires Sorted(L) && Valid(L, |was|) && HalfWay(L, |L|, was, now, Copiado(L, was, pila))
    ensures Valid(Compactada(L), |now|) && Claves(L) <= Contenido(L, was).Keys
    ensures Contenido(Compactada(L), now) == Revuelto(L, Contenido(L, was), pila)
  {
    hide HalfWay, Valid, Sorted, Compactada, Copiado, Tramo, Contenido, Revuelto, Claves;
    ContenidoNames(L, was);
    PackedStore(L, was, now, Copiado(L, was, pila));
    SameScramble(L, was, pila);
  }

  lemma ContenidoNames(L: seq<Seg>, mem: seq<byte>)
    requires Valid(L, |mem|)
    ensures Contenido(L, mem).Keys == Claves(L)
  {
  }

  lemma AllIntact(L: seq<Seg>, was: seq<byte>, now: seq<byte>)
    requires Sorted(L) && Valid(L, |was|) && HalfWay(L, |L|, was, now, Tramos(L, was))
    ensures Valid(Compactada(L), |now|) && Contenido(Compactada(L), now) == Contenido(L, was)
  {
    PackedStore(L, was, now, Tramos(L, was));
    StoreByIndex(L, was);
  }

  // ---- Destroying the segments of a process ----

  function SinProceso(L: seq<Seg>, id: int): seq<Seg> {
    if L == [] then [] else SinProceso(L[..|L| - 1], id) + if L[|L| - 1].idProc == id then [] else [L[|L| - 1]]
  }

  lemma {:induction false} SinProcesoConcat(L: seq<Seg>, M: seq<Seg>, id: int)
    ensures SinProceso(L + M, id) == SinProceso(L, id) + SinProceso(M, id)
  {
    if M == [] {
      assert L + M == L;
    } else {
      var n := |M| - 1;
      assert (L + M)[..|L| + n] == L + M[..n];
      SinProcesoConcat(L, M[..n], id);
    }
  }

  lemma SinProcesoDrop(L: seq<Seg>, i: nat, id: int)
    requires i < |L| && L[i].idProc == id
    ensures SinProceso(L[..i] + L[i + 1..], id) == SinProceso(L, id)
  {
    assert L == L[..i] + ([L[i]] + L[i + 1..]);
    SinProcesoConcat(L[..i], [L[i]] + L[i + 1..], id);
    SinProcesoConcat([L[i]], L[i + 1..], id);
    SinProcesoConcat(L[..i], L[i + 1..], id);
  }

  lemma {:induction false} SinProcesoNone(L: seq<Seg>, id: int)
    requires forall i :: 0 <= i < |L| ==> L[i].idProc != id
    ensures SinProceso(L, id) == L
  {
    if L != [] {
      SinProcesoNone(L[..|L| - 1], id);
    }
  }

  /** Exactly the segments of the process go, in the order of the others. */
  lemma {:induction false} SinProcesoKeeps(L: seq<Seg>, id: int)
    ensures forall x :: multiset(SinProceso(L, id))[x] == if x.idProc == id then 0 else multiset(L)[x]
  {
    if L != [] {
      var n := |L| - 1;
      SinProcesoKeeps(L[..n], id);
      assert L == L[..n] + [L[n]];
    }
  }

  lemma {:induction false} SinProcesoDuenos(L: seq<Seg>, id: int, y: int)
    ensures Duenos(SinProceso(L, id))[y] == if y == id then 0 else Duenos(L)[y]
  {
    if L != [] {
      var n := |L| - 1;
      SinProcesoDuenos(L[..n], id, y);
      if L[n].idProc == id {
        assert SinProceso(L, id) == SinProceso(L[..n], id);
      } else {
        SumaAppend(SinProceso(L[..n], id), L[n]);
      }
    }
  }

  lemma ValidSinProceso(L: seq<Seg>, total: nat, id: int)
    requires Valid(L, total)
    ensures Valid(SinProceso(L, id), total)
    ensures forall x :: x in SinProceso(L, id) <==> x in L && x.idProc != id
  {
    var M := SinProceso(L, id);
    SinProcesoKeeps(L, id);
    forall x
      ensures x in M <==> x in L && x.idProc != id
    {
      assert x in M <==> x in multiset(M);
      assert x in L <==> x in multiset(L);
    }
  }

  /** The store loses the entries of the process and nothing else. */
  lemma ContenidoSinProceso(L: seq<Seg>, mem: seq<byte>, id: int)
    requires Valid(L, |mem|)
    ensures Valid(SinProceso(L, id), |mem|)
    ensures Contenido(SinProceso(L, id), mem) == map k | k in Contenido(L, mem) && k.0 != id :: Contenido(L, mem)[k]
  {
    var M := SinProceso(L, id);
    ValidSinProceso(L, |mem|, id);
    forall k | k in Claves(M)
      ensures k in Claves(L) && Contenido(M, mem)[k] == Contenido(L, mem)[k]
    {
      var x := SegDe(M, k);
      ContenidoAt(L, mem, x);
      ContenidoAt(M, mem, x);
    }
    forall k | k in Claves(L) && k.0 != id
      ensures k in Claves(M)
    {
      assert SegDe(L, k) in M;
    }
  }

  // ---- The segments of one process ----

  /** Type, logical address and size of a segment: what compaction and sorting never change. */
  type Ficha = (int, int, nat)

  ghost function FichaDe(x: Seg): Ficha {
    (x.tipo, x.dirLogica, x.tam)
  }

  ghost function Fichas(L: seq<Seg>, id: int): set<Ficha> {
    set x | x in L && x.idProc == id :: FichaDe(x)
  }

  lemma FichasReordered(L: seq<Seg>, M: seq<Seg>, id: int)
    requires multiset(M) == multiset(L)
    ensures Fichas(M, id) == Fichas(L, id)
  {
    forall x
      ensures x in M <==> x in L
    {
      assert x in M <==> x in multiset(M);
      assert x in L <==> x in multiset(L);
    }
  }

  lemma FichasCompactada(L: seq<Seg>, id: int)
    ensures Fichas(Compactada(L), id) == Fichas(L, id)
  {
    hide SumaHasta;
    var M := Compactada(L);
    forall i | 0 <= i < |L|
      ensures M[i] in M && L[i] in L && FichaDe(M[i]) == FichaDe(L[i]) && M[i].idProc == L[i].idProc
    {
    }
    forall f | f in Fichas(L, id)
      ensures f in Fichas(M, id)
    {
      var i :| 0 <= i < |L| && L[i].idProc == id && FichaDe(L[i]) == f;
      assert M[i] in M;
    }
    forall f | f in Fichas(M, id)
      ensures f in Fichas(L, id)
    {
      var i :| 0 <= i < |M| && M[i].idProc == id && FichaDe(M[i]) == f;
      assert L[i] in L;
    }
  }

  lemma FichasAppend(L: seq<Seg>, x: Seg, id: int)
    ensures Fichas(L + [x], id) == Fichas(L, id) + if x.idProc == id then {FichaDe(x)} else {}
  {
    assert forall y :: y in L + [x] <==> y in L || y == x;
  }

  lemma {:induction false} DuenosIn(L: seq<Seg>, id: int)
    ensures id in Duenos(L) <==> exists x :: x in L && x.idProc == id
    decreases |L|
  {
    if L != [] {
      var n := |L| - 1;
      DuenosIn(L[..n], id);
      assert forall x :: x in L <==> x in L[..n] || x == L[n];
    }
  }

  /** A process that owns nothing has no name and no entry in the table. */
  lemma OwnsNothing(L: seq<Seg>, id: int)
    requires id !in Duenos(L)
    ensures Fichas(L, id) == {} && forall d :: (id, d) !in Claves(L)
  {
    DuenosIn(L, id);
  }

  /** A search by type can only find the one segment of that type. */
  lemma OneOfItsType(L: seq<Seg>, id: int, f: Ficha)
    requires f in Fichas(L, id) && forall g :: g in Fichas(L, id) && g.0 == f.0 ==> g == f
    ensures exists x :: x in L && x.tipo == f.0 && x.idProc == id
    ensures forall x :: x in L && x.tipo == f.0 && x.idProc == id ==> x.Clave() == (id, f.1) && x.tam == f.2
  {
    forall x | x in L && x.tipo == f.0 && x.idProc == id
      ensures FichaDe(x) == f
    {
      assert FichaDe(x) in Fichas(L, id);
    }
  }

  // ---- The running maximum of worst-fit ----

  /** Among the first `j` holes the largest has `best + 1` bytes and `k` is the first such; -1 if all are empty. */
  ghost predicate Largest(L: seq<Seg>, total: nat, j: nat, best: int, k: nat) {
    && j <= |L| && best >= -1
    && (forall i :: 0 <= i < j ==> Hueco(L, total, i) <= best + 1)
    && (best >= 0 ==> k < j && Hueco(L, total, k) == best + 1 && forall i :: 0 <= i < k ==> Hueco(L, total, i) <= best)
  }

  lemma LargestStart(L: seq<Seg>, total: nat)
    ensures Largest(L, total, 0, -1, 0)
  {
  }

  lemma LargestStep(L: seq<Seg>, total: nat, j: nat, best: int, k: nat)
    requires Largest(L, total, j, best, k) && j < |L|
    ensures var h := Hueco(L, total, j) - 1;
            Largest(L, total, j + 1, Max(best, h), if h > best then j else k)
  {
  }

  lemma LargestIsWorst(L: seq<Seg>, total: nat, best: int, k: nat, tam: nat)
    requires Largest(L, total, |L|, best, k) && Hueco(L, total, |L|) >= 0
    ensures var tail := Hueco(L, total, |L|);
            WorstFit(L, total, tam, if tail > best then (if tam <= tail then Cursor(L, |L|) else -1)
                                    else if tam <= best then Cursor(L, k) else -1)
  {
  }
}
