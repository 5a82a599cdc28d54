/** Segment requests as a relation on tables and stores, and when a request leaves the bytes of others alone. */
module Requests {
  import opened Bytes
  import opened SegmentTable

  // Segment requests and the segment types they create.
  const PED_MEM_SEG_COD := 200
  const PED_MEM_IND_ETI := 201
  const PED_MEM_IND_COD := 202
  const PED_MEM_SEG_STACK := 203
  const CODIGO_SCRIPT := 206
  const IND_ETI_FUNC := 207
  const IND_COD := 208
  const IND_STACK := 209

  function TipoSeg(pedido: int): int {
    if pedido == PED_MEM_SEG_COD then CODIGO_SCRIPT
    else if pedido == PED_MEM_IND_ETI then IND_ETI_FUNC
    else if pedido == PED_MEM_IND_COD then IND_COD
    else if pedido == PED_MEM_SEG_STACK then IND_STACK
    else pedido
  }

  // ---- When nothing moves, in terms of the table as it stands ----

  /** Bytes of the segments that start below an address. */
  ghost function SumaBajo(L: seq<Seg>, d: int): nat {
    if L == [] then 0
    else SumaBajo(L[..|L| - 1], d) + if L[|L| - 1].dirFisica < d then L[|L| - 1].tam else 0
  }

  /** No free byte lies below the segment. */
  ghost predicate Apilado(L: seq<Seg>, x: Seg) {
    x.dirFisica == SumaBajo(L, x.dirFisica)
  }

  /** No non-empty segment with one of these names has a free byte below it. */
  ghost predicate Quietos(L: seq<Seg>, N: set<Nombre>) {
    forall x {:trigger Apilado(L, x)} :: x in L && x.tam > 0 && x.Clave() in N ==> Apilado(L, x)
  }

  /** The `n` bytes below the segment are free. */
  ghost predicate LibreBajo(L: seq<Seg>, x: Seg, n: nat) {
    x.dirFisica >= n && forall y :: y in L ==> y.dirFisica >= x.dirFisica || y.Fin() + n <= x.dirFisica
  }

  /** The last `n` bytes of memory are free. */
  ghost predicate LibreAlFinal(L: seq<Seg>, total: nat, n: nat) {
    n <= total && forall y :: y in L ==> y.Fin() + n <= total
  }

  /** Whether a request is met without compaction: more free bytes than it asks for below some segment, or
      enough behind the last. */
  ghost predicate Cabe(L: seq<Seg>, total: nat, tam: nat) {
    (exists x :: x in L && LibreBajo(L, x, tam + 1)) || LibreAlFinal(L, total, tam)
  }

  lemma {:induction false} SumaBajoConcat(L: seq<Seg>, M: seq<Seg>, d: int)
    ensures SumaBajo(L + M, d) == SumaBajo(L, d) + SumaBajo(M, d)
    decreases |M|
  {
    if M == [] {
      assert L + M == L;
    } else {
      var n := |M| - 1;
      assert (L + M)[..|L| + n] == L + M[..n];
      SumaBajoConcat(L, M[..n], d);
    }
  }

  lemma SumaBajoSin(M: seq<Seg>, j: nat, d: int)
    requires j < |M|
    ensures SumaBajo(M, d) == SumaBajo(M[..j] + M[j + 1..], d) + if M[j].dirFisica < d then M[j].tam else 0
    ensures multiset(M[..j] + M[j + 1..]) == multiset(M) - multiset{M[j]}
  {
    var a, b, x := M[..j], M[j + 1..], [M[j]];
    SumaBajoOne(M[j], d);
    hide SumaBajo;
    assert M == a + (x + b);
    SumaBajoConcat(a, x + b, d);
    SumaBajoConcat(x, b, d);
    SumaBajoConcat(a, b, d);
  }

  lemma SumaBajoOne(x: Seg, d: int)
    ensures SumaBajo([x], d) == if x.dirFisica < d then x.tam else 0
  {
    assert [x][..0] == [];
  }

  /** The sum does not depend on the order of the table. */
  lemma {:induction false} SumaBajoPermuted(L: seq<Seg>, M: seq<Seg>, d: int)
    requires multiset(L) == multiset(M)
    ensures SumaBajo(L, d) == SumaBajo(M, d)
    decreases |L|
  {
    hide SumaBajo;
    if |L| == 0 {
      assert L == M == [];
    } else {
      var n := |L| - 1;
      assert L[n] in multiset(M);
      var j :| 0 <= j < |M| && M[j] == L[n];
      SumaBajoSin(L, n, d);
      SumaBajoSin(M, j, d);
      SumaBajoPermuted(L[..n] + L[n + 1..], M[..j] + M[j + 1..], d);
    }
  }

  lemma {:induction false} SumaBajoPrefix(L: seq<Seg>, k: nat, d: int)
    requires k <= |L| && forall j :: 0 <= j < k ==> L[j].dirFisica < d || L[j].tam == 0
    ensures SumaBajo(L[..k], d) == SumaHasta(L, k)
    decreases k
  {
    if k > 0 {
      SumaBajoPrefix(L, k - 1, d);
      assert L[..k][..k - 1] == L[..k - 1];
    }
  }

  lemma {:induction false} SumaBajoAbove(L: seq<Seg>, d: int)
    requires forall j :: 0 <= j < |L| ==> L[j].dirFisica >= d
    ensures SumaBajo(L, d) == 0
    decreases |L|
  {
    if L != [] {
      SumaBajoAbove(L[..|L| - 1], d);
    }
  }

  /** In a table in address order: a non-empty segment has to move if and only if there is a free byte below it. */
  lemma MovesIff(L: seq<Seg>, total: nat, i: nat)
    requires Sorted(L) && Valid(L, total) && i < |L| && L[i].tam > 0
    ensures Moves(L, i) <==> !Apilado(L, L[i])
  {
    var d := L[i].dirFisica;
    forall j | 0 <= j < i
      ensures L[j].dirFisica < d || L[j].tam == 0
    {
      ValidAt(L, total, j, i);
    }
    SumaBajoPrefix(L, i, d);
    SumaBajoAbove(L[i..], d);
    SumaBajoConcat(L[..i], L[i..], d);
    assert L == L[..i] + L[i..];
  }

  lemma SameMembers(L: seq<Seg>, M: seq<Seg>)
    requires multiset(L) == multiset(M)
    ensures forall x :: x in L <==> x in M
  {
    forall x
      ensures x in L <==> x in M
    {
      InPermuted(L, M, x);
    }
  }

  /** Neither condition depends on the order of the table. */
  lemma OrderFree(L: seq<Seg>, M: seq<Seg>, total: nat, tam: nat, N: set<Nombre>)
    requires multiset(L) == multiset(M)
    ensures Cabe(L, total, tam) <==> Cabe(M, total, tam)
    ensures Quietos(L, N) <==> Quietos(M, N)
  {
    hide SumaBajo;
    SameMembers(L, M);
    forall x
      ensures Apilado(L, x) <==> Apilado(M, x)
    {
      SumaBajoPermuted(L, M, x.dirFisica);
    }
    var n := tam + 1;
    forall x
      ensures LibreBajo(L, x, n) <==> LibreBajo(M, x, n)
    {
    }
  }

  /** The first segment at the address of segment `i`, in a table in address order. */
  lemma {:induction false} FirstAt(L: seq<Seg>, i: nat) returns (k: nat)
    requires Sorted(L) && i < |L|
    ensures k <= i && L[k].dirFisica == L[i].dirFisica && forall j :: 0 <= j < k ==> L[j].dirFisica < L[i].dirFisica
    decreases i
  {
    if i == 0 || L[i - 1].dirFisica < L[i].dirFisica {
      k := i;
    } else {
      k := FirstAt(L, i - 1);
    }
  }

  lemma InnerHole(L: seq<Seg>, total: nat, tam: nat, k: nat)
    requires Sorted(L) && Valid(L, total) && k < |L| && Hueco(L, total, k) > tam
    ensures L[k] in L && LibreBajo(L, L[k], tam + 1)
  {
    CursorPlace(L, total, k);
    forall y | y in L
      ensures y.dirFisica >= L[k].dirFisica || y.Fin() + tam + 1 <= L[k].dirFisica
    {
      var j :| 0 <= j < |L| && L[j] == y;
    }
  }

  lemma HoleBelow(L: seq<Seg>, total: nat, tam: nat, x: Seg) returns (k: nat)
    requires Sorted(L) && Valid(L, total) && x in L && LibreBajo(L, x, tam + 1)
    ensures k < |L| && Hueco(L, total, k) > tam
  {
    var i :| 0 <= i < |L| && L[i] == x;
    k := FirstAt(L, i);
    CursorPlace(L, total, k);
    if Cursor(L, k) != 0 {
      var j :| 0 <= j < k && L[j].Fin() == Cursor(L, k);
      assert L[j] in L;
    }
  }

  lemma TailHole(L: seq<Seg>, total: nat, tam: nat)
    requires Sorted(L) && Valid(L, total)
    ensures Hueco(L, total, |L|) >= tam <==> LibreAlFinal(L, total, tam)
  {
    CursorPlace(L, total, |L|);
    if Cursor(L, |L|) != 0 {
      var j :| 0 <= j < |L| && L[j].Fin() == Cursor(L, |L|);
      assert L[j] in L;
    }
    forall y | y in L
      ensures y.Fin() <= Cursor(L, |L|)
    {
      var j :| 0 <= j < |L| && L[j] == y;
    }
  }

  /** Either policy finds a place at the first look if and only if the request is met without compaction. */
  lemma LookFindsIff(alg: int, L: seq<Seg>, total: nat, tam: nat, r: int)
    requires Sorted(L) && Valid(L, total) && Placement(alg, L, total, tam, r)
    ensures r != -1 <==> Cabe(L, total, tam)
  {
    hide Hueco, Cursor, LibreBajo, LibreAlFinal;
    TailHole(L, total, tam);
    if k :| 0 <= k < |L| && Hueco(L, total, k) > tam {
      InnerHole(L, total, tam, k);
    }
    if x :| x in L && LibreBajo(L, x, tam + 1) {
      var k := HoleBelow(L, total, tam, x);
    }
  }

  // ---- What the two policies choose, byte by byte ----

  /** No segment has a byte among the `n` from address `d`, nor lies inside them. */
  ghost predicate LibresDesde(L: seq<Seg>, d: int, n: int) {
    forall y :: y in L ==> y.Fin() <= d || y.dirFisica >= d + n
  }

  /** Address 0 or the end of a segment. */
  ghost predicate Comienzo(L: seq<Seg>, d: int) {
    d == 0 || exists y :: y in L && y.Fin() == d
  }

  /** Behind every segment. */
  ghost predicate AlFinal(L: seq<Seg>, d: int) {
    forall y :: y in L ==> y.Fin() <= d
  }

  /** First-fit: the start of the lowest hole that has a byte more than is asked for; without one, the end if there
      is room. */
  ghost predicate PrimeroQueCabe(L: seq<Seg>, total: nat, tam: nat, r: int) {
    && (forall x :: x in L && LibreBajo(L, x, tam + 1) ==>
          0 <= r && r + tam + 1 <= x.dirFisica && LibresDesde(L, r, tam + 1) && Comienzo(L, r))
    && ((forall x :: x in L ==> !LibreBajo(L, x, tam + 1)) ==>
          if LibreAlFinal(L, total, tam) then AlFinal(L, r) && Comienzo(L, r) else r == -1)
  }

  /** Worst-fit: where as many bytes are free as anywhere; the end rather than a hole that is no larger, and the lower
      of two holes that are. */
  ghost predicate MayorHueco(L: seq<Seg>, total: nat, tam: nat, r: int) {
    r != -1 ==>
      && 0 <= r && Comienzo(L, r)
      && (forall n: nat :: LibreAlFinal(L, total, n) ==> r + n <= total && LibresDesde(L, r, n))
      && (forall x, n: nat :: x in L && LibreBajo(L, x, n) ==> r + n <= total && LibresDesde(L, r, n))
      && (AlFinal(L, r) || forall n: nat :: LibreAlFinal(L, total, n) ==> LibresDesde(L, r, n + 1))
      && (AlFinal(L, r) || forall x, n: nat :: x in L && LibreBajo(L, x, n) && x.dirFisica <= r ==> LibresDesde(L, r, n + 1))
  }

  lemma HoleIsOpen(L: seq<Seg>, total: nat, k: nat)
    requires Sorted(L) && Valid(L, total) && k <= |L|
    ensures LibresDesde(L, Cursor(L, k), Hueco(L, total, k)) && Comienzo(L, Cursor(L, k))
    ensures Cursor(L, k) + Hueco(L, total, k) <= total
    ensures k == |L| ==> AlFinal(L, Cursor(L, k))
  {
    CursorPlace(L, total, k);
    if Cursor(L, k) != 0 {
      var i :| 0 <= i < k && L[i].Fin() == Cursor(L, k);
      assert L[i] in L;
    }
    if k < |L| {
      assert L[k] in L;
    }
    forall y | y in L
      ensures y.Fin() <= Cursor(L, k) || (k < |L| && y.dirFisica >= Cursor(L, k) + Hueco(L, total, k))
    {
      var j :| 0 <= j < |L| && L[j] == y;
    }
  }

  lemma LowestHole(L: seq<Seg>, total: nat, tam: nat, k: nat, x: Seg)
    requires Sorted(L) && Valid(L, total) && k < |L| && Hueco(L, total, k) > tam
    requires forall j :: 0 <= j < k ==> Hueco(L, total, j) <= tam
    requires x in L && LibreBajo(L, x, tam + 1)
    ensures Cursor(L, k) + tam + 1 <= x.dirFisica
  {
    var i := HoleBelow(L, total, tam, x);
    CursorPlace(L, total, k);
    if x.dirFisica < L[k].dirFisica {
      var j :| 0 <= j < |L| && L[j] == x;
      HoleAtOrBelow(L, total, tam, j);
    }
  }

  /** The hole below segment `j` is in front of the first segment at its address. */
  lemma HoleAtOrBelow(L: seq<Seg>, total: nat, tam: nat, j: nat)
    requires Sorted(L) && Valid(L, total) && j < |L| && LibreBajo(L, L[j], tam + 1)
    ensures exists i :: 0 <= i <= j && Hueco(L, total, i) > tam && Cursor(L, i) + tam + 1 <= L[j].dirFisica
  {
    var k := FirstAt(L, j);
    CursorPlace(L, total, k);
    if Cursor(L, k) != 0 {
      var i :| 0 <= i < k && L[i].Fin() == Cursor(L, k);
      assert L[i] in L;
    }
  }

  lemma FirstFitLowest(L: seq<Seg>, total: nat, tam: nat, r: int)
    requires Sorted(L) && Valid(L, total) && FirstFit(L, total, tam, r)
    ensures PrimeroQueCabe(L, total, tam, r)
  {
    hide LibreBajo, LibreAlFinal, Hueco, Cursor, LibresDesde, Comienzo, AlFinal;
    TailHole(L, total, tam);
    HoleIsOpen(L, total, |L|);
    if k :| 0 <= k < |L| && Hueco(L, total, k) > tam && r == Cursor(L, k) && forall j :: 0 <= j < k ==> Hueco(L, total, j) <= tam {
      HoleIsOpen(L, total, k);
      InnerHole(L, total, tam, k);
      FewerFree(L, r, Hueco(L, total, k), tam + 1);
      forall x | x in L && LibreBajo(L, x, tam + 1)
        ensures r + tam + 1 <= x.dirFisica
      {
        LowestHole(L, total, tam, k, x);
      }
    } else {
      forall x | x in L
        ensures !LibreBajo(L, x, tam + 1)
      {
        if LibreBajo(L, x, tam + 1) {
          var k := HoleBelow(L, total, tam, x);
        }
      }
    }
  }

  lemma FewerFree(L: seq<Seg>, d: int, n: int, k: int)
    requires LibresDesde(L, d, n) && k <= n
    ensures LibresDesde(L, d, k)
  {
  }

  /** No hole, below a segment or at the end, is larger than the largest of the walk. */
  lemma NoLargerHole(L: seq<Seg>, total: nat, x: Seg, n: nat) returns (k: nat)
    requires Sorted(L) && Valid(L, total) && x in L && LibreBajo(L, x, n)
    ensures n > 0 ==> k < |L| && n <= Hueco(L, total, k) && L[k].dirFisica <= x.dirFisica
  {
    k := 0;
    if n > 0 {
      var j :| 0 <= j < |L| && L[j] == x;
      HoleAtOrBelow(L, total, n - 1, j);
      k :| 0 <= k <= j && Hueco(L, total, k) > n - 1;
    }
  }

  lemma WorstFitLargest(L: seq<Seg>, total: nat, tam: nat, r: int)
    requires Sorted(L) && Valid(L, total) && WorstFit(L, total, tam, r)
    ensures MayorHueco(L, total, tam, r)
  {
    hide LibreBajo, LibreAlFinal, Hueco, Cursor, LibresDesde, Comienzo, AlFinal;
    if r != -1 {
      var k := ChosenHole(L, total, tam, r);
      HoleIsOpen(L, total, k);
      var h := Hueco(L, total, k);
      forall n: nat | LibreAlFinal(L, total, n)
        ensures r + n <= total && LibresDesde(L, r, n) && (k < |L| ==> LibresDesde(L, r, n + 1))
      {
        TailHole(L, total, n);
        FewerFree(L, r, h, n);
        if k < |L| {
          FewerFree(L, r, h, n + 1);
        }
      }
      forall x, n: nat | x in L && LibreBajo(L, x, n)
        ensures r + n <= total && LibresDesde(L, r, n)
        ensures k < |L| && x.dirFisica <= r ==> LibresDesde(L, r, n + 1)
      {
        var i := NoLargerHole(L, total, x, n);
        HolePositive(L, total, k);
        FewerFree(L, r, h, n);
        if k < |L| && x.dirFisica <= r {
          if n > 0 {
            EarlierHole(L, total, i, k);
          }
          FewerFree(L, r, h, n + 1);
        }
      }
    }
  }

  lemma HolePositive(L: seq<Seg>, total: nat, k: nat)
    requires Sorted(L) && Valid(L, total) && k <= |L|
    ensures Hueco(L, total, k) >= 0
  {
    CursorPlace(L, total, k);
  }

  /** A hole in front of a segment that lies at or below the start of another hole comes before it in the walk. */
  lemma EarlierHole(L: seq<Seg>, total: nat, i: nat, k: nat)
    requires Sorted(L) && Valid(L, total) && i < |L| && k < |L| && Hueco(L, total, k) > 0
    requires L[i].dirFisica <= Cursor(L, k)
    ensures i < k
  {
  }

  /** The hole worst-fit takes, among those of the walk. */
  lemma ChosenHole(L: seq<Seg>, total: nat, tam: nat, r: int) returns (k: nat)
    requires WorstFit(L, total, tam, r) && r != -1
    ensures k <= |L| && r == Cursor(L, k) && Hueco(L, total, |L|) <= Hueco(L, total, k)
    ensures forall j :: 0 <= j < |L| ==> Hueco(L, total, j) <= Hueco(L, total, k)
    ensures k < |L| ==> 0 < Hueco(L, total, k) && Hueco(L, total, |L|) < Hueco(L, total, k)
                        && forall j :: 0 <= j < k ==> Hueco(L, total, j) < Hueco(L, total, k)
  {
    hide Hueco, Cursor;
    if k0 :| 0 <= k0 < |L| && Hueco(L, total, |L|) < Hueco(L, total, k0)
                && (forall j :: 0 <= j < |L| ==> Hueco(L, total, j) <= Hueco(L, total, k0))
                && (forall j :: 0 <= j < k0 ==> Hueco(L, total, j) < Hueco(L, total, k0))
                && r == if tam < Hueco(L, total, k0) then Cursor(L, k0) else -1 {
      k := k0;
    } else {
      k := |L|;
    }
  }

  /** Both policies always have an answer. */
  lemma PlacementExists(alg: int, L: seq<Seg>, total: nat, tam: nat) returns (r: int)
    requires Sorted(L) && Valid(L, total)
    ensures Placement(alg, L, total, tam, r)
  {
    CursorPlace(L, total, |L|);
    if alg == FIRST_FIT {
      r := FirstFitExists(L, total, tam);
    } else {
      r := WorstFitExists(L, total, tam);
    }
  }

  lemma FirstFitExists(L: seq<Seg>, total: nat, tam: nat) returns (r: int)
    ensures FirstFit(L, total, tam, r)
  {
    var j := 0;
    while j < |L| && Hueco(L, total, j) <= tam
      invariant 0 <= j <= |L| && forall i :: 0 <= i < j ==> Hueco(L, total, i) <= tam
    {
      j := j + 1;
    }
    r := if j < |L| then Cursor(L, j) else if tam <= Hueco(L, total, |L|) then Cursor(L, |L|) else -1;
  }

  lemma WorstFitExists(L: seq<Seg>, total: nat, tam: nat) returns (r: int)
    requires Cursor(L, |L|) <= total
    ensures WorstFit(L, total, tam, r)
  {
    hide WorstFit;
    var j, best, k := 0, -1, 0;
    LargestStart(L, total);
    while j < |L|
      invariant 0 <= j <= |L| && best >= -1 && 0 <= k <= j && Largest(L, total, j, best, k)
    {
      LargestStep(L, total, j, best, k);
      var h := Hueco(L, total, j) - 1;
      k := if h > best then j else k;
      best := Max(best, h);
      j := j + 1;
    }
    LargestIsWorst(L, total, best, k, tam);
    var tail := Hueco(L, total, |L|);
    r := if tail > best then (if tam <= tail then Cursor(L, |L|) else -1) else if tam <= best then Cursor(L, k) else -1;
  }

  // ---- One request ----

  /** The memory server apart from its segments: whether `compactar` copies as it was meant to or as it is
      written, the placement policy, and the bytes of memory. */
  datatype Memoria = Memoria(copia: bool, alg: int, total: nat)

  /** The segment table and what its clients can read. */
  datatype Tabla = Tabla(segs: seq<Seg>, store: Almacen)

  /** `dir` is the logical address `rand()` will give. */
  datatype Pedido = Pedido(tipo: int, tam: nat, dir: int)

  ghost predicate Bien(m: Memoria, t: Tabla) {
    Valid(t.segs, m.total) && DeLaTabla(t.store, t.segs)
  }

  /** `compactar` on a table in address order. */
  ghost function Compacta(m: Memoria, L: seq<Seg>, A: Almacen, pila: Residuo): Tabla
    requires Claves(L) <= A.Keys
  {
    Tabla(Compactada(L), if m.copia then A else Revuelto(L, A, pila))
  }

  /** The first look of `crearSegmento`, and the compaction when it finds nothing. */
  ghost predicate MiraCon(m: Memoria, t: Tabla, tam: nat, pila: Residuo, L: seq<Seg>, primera: int, base: Tabla) {
    && Reordered(t.segs, L) && Claves(L) <= t.store.Keys
    && Placement(m.alg, L, m.total, tam, primera)
    && base == if primera != -1 then Tabla(L, t.store) else Compacta(m, L, t.store, pila)
  }

  ghost predicate Mira(m: Memoria, t: Tabla, tam: nat, pila: Residuo, base: Tabla) {
    exists L, primera :: MiraCon(m, t, tam, pila, L, primera, base)
  }

  /** A request is granted when it is at most the free bytes. */
  predicate Dado(m: Memoria, L: seq<Seg>, tam: nat) {
    tam + Suma(L) <= m.total
  }

  function NuevoSeg(id: int, p: Pedido, dirFisica: nat): Seg {
    Seg(id, p.dir, dirFisica, p.tam, TipoSeg(p.tipo))
  }

  ghost predicate AgregaEn(m: Memoria, base: Tabla, id: int, p: Pedido, u: Tabla, r: nat, b: seq<byte>) {
    && Placement(m.alg, base.segs, m.total, p.tam, r) && |b| == p.tam
    && u == Tabla(base.segs + [NuevoSeg(id, p, r)], base.store[(id, p.dir) := b])
  }

  /** The new segment goes where the policy says; what it holds is left over from earlier use. */
  ghost predicate Agrega(m: Memoria, base: Tabla, id: int, p: Pedido, u: Tabla) {
    exists r, b :: AgregaEn(m, base, id, p, u, r, b)
  }

  ghost function Sin(t: Tabla, id: int): Tabla {
    Tabla(SinProceso(t.segs, id), map k | k in t.store && k.0 != id :: t.store[k])
  }

  /** `gestionar_ped_seg`: what a request can leave behind. */
  ghost predicate Responde(m: Memoria, t: Tabla, id: int, p: Pedido, pila: Residuo, u: Tabla) {
    exists base :: Mira(m, t, p.tam, pila, base)
                   && if Dado(m, t.segs, p.tam) then Agrega(m, base, id, p, u) else u == Sin(base, id)
  }

  lemma RevueltoFits(L: seq<Seg>, total: nat, A: Almacen, pila: Residuo)
    requires Valid(L, total) && DeLaTabla(A, L)
    ensures DeLaTabla(Revuelto(L, A, pila), L)
  {
    forall x | x in L
      ensures |Revuelto(L, A, pila)[x.Clave()]| == x.tam
    {
      assert L[Indice(L, x.Clave())] in L;
    }
  }

  lemma CompactedFits(L: seq<Seg>, A: Almacen)
    requires DeLaTabla(A, L)
    ensures DeLaTabla(A, Compactada(L))
  {
    CompactedNames(L);
    var M := Compactada(L);
    forall x | x in M
      ensures |A[x.Clave()]| == x.tam
    {
      var i :| 0 <= i < |M| && M[i] == x;
      assert L[i] in L;
    }
  }

  lemma PermutedFits(L: seq<Seg>, M: seq<Seg>, total: nat, A: Almacen)
    requires Valid(L, total) && DeLaTabla(A, L) && multiset(M) == multiset(L)
    ensures Valid(M, total) && DeLaTabla(A, M)
  {
    ValidPermuted(L, M, total);
    SameMembers(L, M);
  }

  /** The look keeps everything but addresses, and with compaction as written bytes. */
  lemma MiraKeeps(m: Memoria, t: Tabla, tam: nat, pila: Residuo, base: Tabla)
    requires Bien(m, t) && Mira(m, t, tam, pila, base)
    ensures Bien(m, base) && Sorted(base.segs) && Suma(base.segs) == Suma(t.segs)
    ensures Duenos(base.segs) == Duenos(t.segs) && Claves(base.segs) == Claves(t.segs)
  {
    hide Revuelto, Placement, Compactada, SinProceso, Suma, Duenos, Claves, Valid, DeLaTabla;
    var L, primera :| MiraCon(m, t, tam, pila, L, primera, base);
    PermutedFits(t.segs, L, m.total, t.store);
    PermutedNames(t.segs, L);
    if primera == -1 {
      CompactedTable(L, m.total);
      CompactedNames(L);
      RevueltoFits(L, m.total, t.store, pila);
      CompactedFits(L, base.store);
    }
  }

  lemma PermutedNames(L: seq<Seg>, M: seq<Seg>)
    requires multiset(L) == multiset(M)
    ensures Claves(L) == Claves(M)
  {
    SameMembers(L, M);
  }

  lemma GrantedKeeps(m: Memoria, base: Tabla, id: int, p: Pedido, u: Tabla)
    requires Bien(m, base) && Sorted(base.segs) && Agrega(m, base, id, p, u) && (id, p.dir) !in Claves(base.segs)
    ensures Bien(m, u) && Suma(u.segs) == Suma(base.segs) + p.tam
    ensures Duenos(u.segs) == Duenos(base.segs) + multiset{id} && Claves(u.segs) == Claves(base.segs) + {(id, p.dir)}
  {
    hide Placement, Hueco, Cursor, Suma, Duenos;
    var r: nat, b: seq<byte> :| AgregaEn(m, base, id, p, u, r, b);
    var x := NuevoSeg(id, p, r);
    var k := PlacementIsAHole(m.alg, base.segs, m.total, p.tam, r);
    NamesDiffer(base.segs, x);
    HoleIsFree(base.segs, m.total, k, x);
    SumaAppend(base.segs, x);
    ClavesAppend(base.segs, x);
  }

  lemma NamesDiffer(L: seq<Seg>, x: Seg)
    requires x.Clave() !in Claves(L)
    ensures forall y :: y in L ==> y.Clave() != x.Clave()
  {
    forall y | y in L
      ensures y.Clave() != x.Clave()
    {
      assert y.Clave() in Claves(L);
    }
  }

  lemma RefusedKeeps(m: Memoria, base: Tabla, id: int)
    requires Bien(m, base)
    ensures Bien(m, Sin(base, id)) && Duenos(SinProceso(base.segs, id)) == Duenos(base.segs)[id := 0]
  {
    hide Duenos, SinProceso;
    ValidSinProceso(base.segs, m.total, id);
    forall y
      ensures Duenos(SinProceso(base.segs, id))[y] == Duenos(base.segs)[id := 0][y]
    {
      SinProcesoDuenos(base.segs, id, y);
    }
  }

  /** What every answer keeps: a granted request adds one segment, a refused one takes all of the process. */
  lemma RespondeKeeps(m: Memoria, t: Tabla, id: int, p: Pedido, pila: Residuo, u: Tabla)
    requires Bien(m, t) && Responde(m, t, id, p, pila, u) && (id, p.dir) !in Claves(t.segs)
    ensures Bien(m, u)
    ensures Dado(m, t.segs, p.tam) ==> Suma(u.segs) == Suma(t.segs) + p.tam
    ensures Dado(m, t.segs, p.tam) ==> Duenos(u.segs) == Duenos(t.segs) + multiset{id}
    ensures Dado(m, t.segs, p.tam) ==> Claves(u.segs) == Claves(t.segs) + {(id, p.dir)}
    ensures !Dado(m, t.segs, p.tam) ==> Duenos(u.segs) == Duenos(t.segs)[id := 0]
  {
    hide Mira, Bien, Agrega, Suma, Duenos, Claves, SinProceso;
    var base :| Mira(m, t, p.tam, pila, base)
                && if Dado(m, t.segs, p.tam) then Agrega(m, base, id, p, u) else u == Sin(base, id);
    MiraKeeps(m, t, p.tam, pila, base);
    if Dado(m, t.segs, p.tam) {
      GrantedKeeps(m, base, id, p, u);
    } else {
      RefusedKeeps(m, base, id);
    }
  }

  /** Something always comes of a request. */
  lemma RespondeExists(m: Memoria, t: Tabla, id: int, p: Pedido, pila: Residuo, base: Tabla) returns (u: Tabla)
    requires Bien(m, t) && Mira(m, t, p.tam, pila, base)
    ensures Responde(m, t, id, p, pila, u)
    ensures Dado(m, t.segs, p.tam) ==> Agrega(m, base, id, p, u)
    ensures !Dado(m, t.segs, p.tam) ==> u == Sin(base, id)
  {
    if Dado(m, t.segs, p.tam) {
      var r := PlaceForGranted(m, t, p.tam, pila, base);
      var b: seq<byte> := seq(p.tam, i => 0);
      u := Tabla(base.segs + [NuevoSeg(id, p, r)], base.store[(id, p.dir) := b]);
      assert AgregaEn(m, base, id, p, u, r, b);
    } else {
      u := Sin(base, id);
    }
  }

  lemma PlaceForGranted(m: Memoria, t: Tabla, tam: nat, pila: Residuo, base: Tabla) returns (r: nat)
    requires Bien(m, t) && Mira(m, t, tam, pila, base) && Dado(m, t.segs, tam)
    ensures Placement(m.alg, base.segs, m.total, tam, r)
  {
    hide Placement, Hueco, Cursor, Suma, Revuelto;
    MiraKeeps(m, t, tam, pila, base);
    var L, primera :| MiraCon(m, t, tam, pila, L, primera, base);
    ValidPermuted(t.segs, L, m.total);
    var s := PlacementExists(m.alg, base.segs, m.total, tam);
    if primera != -1 {
      PlacementIsUnique(m.alg, L, m.total, tam, primera, s);
    } else {
      SearchAfterCompaction(m.alg, L, m.total, tam, s);
    }
    var k := PlacementIsAHole(m.alg, base.segs, m.total, tam, s);
    r := s;
  }

  // ---- Requests that leave the bytes of others alone ----

  /** Every entry with one of these names is there afterwards, byte for byte. */
  ghost predicate Conserva(A: Almacen, B: Almacen, N: set<Nombre>) {
    forall k :: k in N && k in A ==> k in B && B[k] == A[k]
  }

  /** Compaction copies as it was meant to, or it is not needed, or none of these segments would move. */
  ghost predicate Quieto(m: Memoria, L: seq<Seg>, tam: nat, N: set<Nombre>) {
    m.copia || Cabe(L, m.total, tam) || Quietos(L, N)
  }

  lemma StillKept(L: seq<Seg>, total: nat, A: Almacen, pila: Residuo, N: set<Nombre>)
    requires Sorted(L) && Valid(L, total) && DeLaTabla(A, L) && Quietos(L, N)
    ensures Conserva(A, Revuelto(L, A, pila), N)
  {
    hide Valid, Sorted, Apilado;
    forall k | k in N && k in A
      ensures Revuelto(L, A, pila)[k] == A[k]
    {
      var i := Indice(L, k);
      assert L[i] in L;
      if L[i].tam > 0 {
        MovesIff(L, total, i);
      } else {
        assert A[k] == [] == PilaBytes(pila, i, 0);
      }
    }
  }

  lemma LookKeeps(m: Memoria, t: Tabla, tam: nat, pila: Residuo, base: Tabla, N: set<Nombre>)
    requires Bien(m, t) && Mira(m, t, tam, pila, base) && Quieto(m, t.segs, tam, N)
    ensures Conserva(t.store, base.store, N)
  {
    hide Revuelto, Placement, Valid, Cabe, Quietos, Claves, DeLaTabla;
    var L, primera :| MiraCon(m, t, tam, pila, L, primera, base);
    PermutedFits(t.segs, L, m.total, t.store);
    LookFindsIff(m.alg, L, m.total, tam, primera);
    OrderFree(t.segs, L, m.total, tam, N);
    if primera == -1 && !m.copia {
      StillKept(L, m.total, t.store, pila, N);
    }
  }

  lemma LostIn(L: seq<Seg>, total: nat, A: Almacen, x: Seg) returns (pila: Residuo)
    requires Sorted(L) && Valid(L, total) && DeLaTabla(A, L) && x in L && x.tam > 0 && !Apilado(L, x)
    ensures x.Clave() in A && Revuelto(L, A, pila)[x.Clave()] != A[x.Clave()]
  {
    hide Apilado;
    var i :| 0 <= i < |L| && L[i] == x;
    MovesIff(L, total, i);
    pila := MovedIsLost(L, total, A, i);
  }

  lemma LookLosesSome(m: Memoria, t: Tabla, tam: nat, N: set<Nombre>) returns (pila: Residuo, base: Tabla)
    requires Bien(m, t) && !Quieto(m, t.segs, tam, N)
    ensures Mira(m, t, tam, pila, base) && !Conserva(t.store, base.store, N)
  {
    hide Placement, Cabe, Apilado, Ordenada, Valid, Sorted, Revuelto;
    var L := Ordenada(t.segs);
    OrdenadaReorders(t.segs);
    PermutedFits(t.segs, L, m.total, t.store);
    OrderFree(t.segs, L, m.total, tam, N);
    var primera := PlacementExists(m.alg, L, m.total, tam);
    LookFindsIff(m.alg, L, m.total, tam, primera);
    var x :| x in L && x.tam > 0 && x.Clave() in N && !Apilado(L, x);
    pila := LostIn(L, m.total, t.store, x);
    base := Compacta(m, L, t.store, pila);
    assert MiraCon(m, t, tam, pila, L, primera, base);
  }

  /** After the look, the answer touches names of its own process only. */
  lemma AnswerKeepsOthers(m: Memoria, t: Tabla, base: Tabla, id: int, p: Pedido, u: Tabla, N: set<Nombre>)
    requires if Dado(m, t.segs, p.tam) then Agrega(m, base, id, p, u) else u == Sin(base, id)
    requires forall k :: k in N ==> k.0 != id
    ensures Conserva(t.store, u.store, N) <==> Conserva(t.store, base.store, N)
  {
    hide Placement, SinProceso;
    if Dado(m, t.segs, p.tam) {
      var r: nat, b: seq<byte> :| AgregaEn(m, base, id, p, u, r, b);
      forall k | k in N
        ensures (k in u.store <==> k in base.store) && (k in base.store ==> u.store[k] == base.store[k])
      {
      }
    }
  }

  /** A request leaves the named segments of other processes alone, whatever the stack of the server holds, if and
      only if its table is quiet: compaction copies, or is not needed, or would move none of them. */
  lemma QuietoIff(m: Memoria, t: Tabla, id: int, p: Pedido, N: set<Nombre>)
    requires Bien(m, t) && (id, p.dir) !in Claves(t.segs) && forall k :: k in N ==> k.0 != id
    ensures Quieto(m, t.segs, p.tam, N) <==>
      forall pila, u :: Responde(m, t, id, p, pila, u) ==> Conserva(t.store, u.store, N)
  {
    hide Bien, Mira, Agrega, Quieto, Conserva, Claves, Dado;
    if Quieto(m, t.segs, p.tam, N) {
      forall pila, u | Responde(m, t, id, p, pila, u)
        ensures Conserva(t.store, u.store, N)
      {
        QuietoKeeps(m, t, id, p, pila, u, N);
      }
    } else {
      var pila, base := LookLosesSome(m, t, p.tam, N);
      var u := RespondeExists(m, t, id, p, pila, base);
      AnswerKeepsOthers(m, t, base, id, p, u, N);
    }
  }

  lemma QuietoKeeps(m: Memoria, t: Tabla, id: int, p: Pedido, pila: Residuo, u: Tabla, N: set<Nombre>)
    requires Bien(m, t) && Responde(m, t, id, p, pila, u) && Quieto(m, t.segs, p.tam, N)
    requires forall k :: k in N ==> k.0 != id
    ensures Conserva(t.store, u.store, N)
  {
    hide Bien, Mira, Agrega, Quieto, Conserva, Dado;
    var base :| Mira(m, t, p.tam, pila, base)
                && if Dado(m, t.segs, p.tam) then Agrega(m, base, id, p, u) else u == Sin(base, id);
    LookKeeps(m, t, p.tam, pila, base, N);
    AnswerKeepsOthers(m, t, base, id, p, u, N);
  }

  // ---- The requests of an admission ----

  /** The logical addresses are new to the process and to each other. */
  ghost predicate Frescos(id: int, ps: seq<Pedido>, L: seq<Seg>) {
    && (forall i :: 0 <= i < |ps| ==> (id, ps[i].dir) !in Claves(L))
    && (forall i, j :: 0 <= i < j < |ps| ==> ps[i].dir != ps[j].dir)
  }

  /** The tables a granted request can leave. */
  ghost predicate SucedeCon(m: Memoria, L: seq<Seg>, id: int, p: Pedido, M: seq<Seg>, O: seq<Seg>, primera: int, r: nat) {
    && Reordered(L, O) && Placement(m.alg, O, m.total, p.tam, primera)
    && var base := if primera != -1 then O else Compactada(O);
    Placement(m.alg, base, m.total, p.tam, r) && M == base + [NuevoSeg(id, p, r)]
  }

  ghost predicate Sucede(m: Memoria, L: seq<Seg>, id: int, p: Pedido, M: seq<Seg>) {
    exists O, primera, r :: SucedeCon(m, L, id, p, M, O, primera, r)
  }

  /** Each request of the sequence finds a quiet table, up to the first that is refused. */
  ghost predicate CadenaQuieta(m: Memoria, L: seq<Seg>, id: int, ps: seq<Pedido>, N: set<Nombre>)
    decreases |ps|
  {
    ps != [] ==>
      && Quieto(m, L, ps[0].tam, N)
      && (Dado(m, L, ps[0].tam) ==>
            forall M :: Sucede(m, L, id, ps[0], M) ==> CadenaQuieta(m, M, id, ps[1..], N))
  }

  /** In no run of the requests is any of these entries ever changed. */
  ghost predicate SiempreIguales(m: Memoria, t: Tabla, id: int, ps: seq<Pedido>, N: set<Nombre>)
    decreases |ps|
  {
    ps != [] ==>
      forall pila, u :: Responde(m, t, id, ps[0], pila, u) ==>
        Conserva(t.store, u.store, N) && (Dado(m, t.segs, ps[0].tam) ==> SiempreIguales(m, u, id, ps[1..], N))
  }

  lemma AnswerSucceeds(m: Memoria, t: Tabla, id: int, p: Pedido, pila: Residuo, u: Tabla)
    requires Responde(m, t, id, p, pila, u) && Dado(m, t.segs, p.tam)
    ensures Sucede(m, t.segs, id, p, u.segs)
  {
    hide Placement, Revuelto, Compactada, Reordered, Claves;
    var base :| Mira(m, t, p.tam, pila, base) && Agrega(m, base, id, p, u);
    var L, primera :| MiraCon(m, t, p.tam, pila, L, primera, base);
    var r: nat, b: seq<byte> :| AgregaEn(m, base, id, p, u, r, b);
    assert SucedeCon(m, t.segs, id, p, u.segs, L, primera, r);
  }

  lemma SuccessorAnswers(m: Memoria, t: Tabla, id: int, p: Pedido, pila: Residuo, M: seq<Seg>) returns (u: Tabla)
    requires Bien(m, t) && Sucede(m, t.segs, id, p, M) && Dado(m, t.segs, p.tam)
    ensures Responde(m, t, id, p, pila, u) && u.segs == M
  {
    hide Placement, Revuelto, Compactada, Suma;
    var O, primera, r :| SucedeCon(m, t.segs, id, p, M, O, primera, r);
    PermutedNames(t.segs, O);
    var base := if primera != -1 then Tabla(O, t.store) else Compacta(m, O, t.store, pila);
    assert MiraCon(m, t, p.tam, pila, O, primera, base);
    var b: seq<byte> := seq(p.tam, i => 0);
    u := Tabla(M, base.store[(id, p.dir) := b]);
    assert AgregaEn(m, base, id, p, u, r, b);
    assert Mira(m, t, p.tam, pila, base) && Agrega(m, base, id, p, u);
  }

  lemma StillFresh(id: int, ps: seq<Pedido>, L: seq<Seg>, M: seq<Seg>)
    requires ps != [] && Frescos(id, ps, L) && Claves(M) == Claves(L) + {(id, ps[0].dir)}
    ensures Frescos(id, ps[1..], M)
  {
  }

  /** A sequence of requests never changes a byte of the named segments of other processes, whatever the stack of
      the server holds and however equal addresses are sorted, if and only if each of them finds a quiet table. */
  lemma {:induction false} ChainIff(m: Memoria, t: Tabla, id: int, ps: seq<Pedido>, N: set<Nombre>)
    requires Bien(m, t) && Frescos(id, ps, t.segs) && forall k :: k in N ==> k.0 != id
    ensures CadenaQuieta(m, t.segs, id, ps, N) <==> SiempreIguales(m, t, id, ps, N)
    decreases |ps|
  {
    hide Bien, Responde, Sucede, Quieto, Conserva, Claves, Suma;
    if ps != [] {
      QuietoIff(m, t, id, ps[0], N);
      if CadenaQuieta(m, t.segs, id, ps, N) {
        forall pila, u | Responde(m, t, id, ps[0], pila, u)
          ensures Conserva(t.store, u.store, N)
          ensures Dado(m, t.segs, ps[0].tam) ==> SiempreIguales(m, u, id, ps[1..], N)
        {
          if Dado(m, t.segs, ps[0].tam) {
            RespondeKeeps(m, t, id, ps[0], pila, u);
            AnswerSucceeds(m, t, id, ps[0], pila, u);
            StillFresh(id, ps, t.segs, u.segs);
            ChainIff(m, u, id, ps[1..], N);
          }
        }
      }
      if SiempreIguales(m, t, id, ps, N) && Dado(m, t.segs, ps[0].tam) {
        forall M | Sucede(m, t.segs, id, ps[0], M)
          ensures CadenaQuieta(m, M, id, ps[1..], N)
        {
          var pila: Residuo := (i, k) => 0;
          var u := SuccessorAnswers(m, t, id, ps[0], pila, M);
          RespondeKeeps(m, t, id, ps[0], pila, u);
          StillFresh(id, ps, t.segs, u.segs);
          ChainIff(m, u, id, ps[1..], N);
        }
      }
    }
  }

  // ---- What an admission leaves behind ----

  /** `u` is where a run of the requests ends, all granted or stopped at the first one refused. */
  ghost predicate Atiende(m: Memoria, t: Tabla, id: int, ps: seq<Pedido>, u: Tabla, dado: bool)
    decreases |ps|
  {
    if ps == [] then u == t && dado
    else exists pila, v :: Responde(m, t, id, ps[0], pila, v) && SigueAtendiendo(m, t, id, ps, v, u, dado)
  }

  ghost predicate SigueAtendiendo(m: Memoria, t: Tabla, id: int, ps: seq<Pedido>, v: Tabla, u: Tabla, dado: bool)
    requires ps != []
    decreases |ps|, 0
  {
    if Dado(m, t.segs, ps[0].tam) then Atiende(m, v, id, ps[1..], u, dado) else u == v && !dado
  }

  /** The servers between the answers, up to the end or to a refusal. */
  ghost predicate Encadena(m: Memoria, ts: seq<Tabla>, id: int, ps: seq<Pedido>) {
    && 1 <= |ts| <= |ps| + 1
    && (forall i :: 0 <= i < |ts| - 1 ==> EsRespuesta(m, ts[i], id, ps[i], ts[i + 1]))
    && (forall i :: 0 <= i < |ts| - 2 ==> Dado(m, ts[i].segs, ps[i].tam))
  }

  ghost predicate EsRespuesta(m: Memoria, t: Tabla, id: int, p: Pedido, u: Tabla) {
    exists pila :: Responde(m, t, id, p, pila, u)
  }

  lemma FirstLink(m: Memoria, t: Tabla, id: int, ps: seq<Pedido>)
    ensures Encadena(m, [t], id, ps)
  {
  }

  lemma OneLink(m: Memoria, ts: seq<Tabla>, id: int, ps: seq<Pedido>, pila: Residuo, u: Tabla)
    requires Encadena(m, ts, id, ps) && |ts| <= |ps| && Responde(m, ts[|ts| - 1], id, ps[|ts| - 1], pila, u)
    requires |ts| >= 2 ==> Dado(m, ts[|ts| - 2].segs, ps[|ts| - 2].tam)
    ensures Encadena(m, ts + [u], id, ps)
  {
    hide Responde, Dado;
    assert EsRespuesta(m, ts[|ts| - 1], id, ps[|ts| - 1], u);
  }

  lemma {:induction false} ChainRuns(m: Memoria, ts: seq<Tabla>, id: int, ps: seq<Pedido>, dado: bool)
    requires Encadena(m, ts, id, ps)
    requires dado ==> |ts| == |ps| + 1 && (|ts| >= 2 ==> Dado(m, ts[|ts| - 2].segs, ps[|ts| - 2].tam))
    requires !dado ==> |ts| >= 2 && !Dado(m, ts[|ts| - 2].segs, ps[|ts| - 2].tam)
    ensures Atiende(m, ts[0], id, ps, ts[|ts| - 1], dado)
    decreases |ts|
  {
    hide Responde, Dado;
    if |ts| >= 2 {
      var rest, qs := ts[1..], ps[1..];
      assert EsRespuesta(m, ts[0], id, ps[0], ts[1]);
      var pila :| Responde(m, ts[0], id, ps[0], pila, ts[1]);
      if |ts| > 2 || dado {
        assert forall i :: 0 <= i < |rest| ==> rest[i] == ts[i + 1];
        assert forall i :: 0 <= i < |qs| ==> qs[i] == ps[i + 1];
        assert Encadena(m, rest, id, qs);
        ChainRuns(m, rest, id, qs, dado);
      }
      assert SigueAtendiendo(m, ts[0], id, ps, ts[1], ts[|ts| - 1], dado);
    }
  }

  function SumaPedidos(ps: seq<Pedido>): nat {
    if ps == [] then 0 else ps[0].tam + SumaPedidos(ps[1..])
  }

  lemma SumaBounded(L: seq<Seg>, total: nat)
    requires Valid(L, total)
    ensures Suma(L) <= total
  {
    hide Valid, Ordenada;
    OrdenadaReorders(L);
    ValidPermuted(L, Ordenada(L), total);
    HoleWithinFree(Ordenada(L), total, 0);
  }

  lemma FirstFresh(id: int, ps: seq<Pedido>, L: seq<Seg>)
    requires ps != [] && Frescos(id, ps, L)
    ensures (id, ps[0].dir) !in Claves(L)
  {
  }

  /** `n` segments more for the process if all were granted, none at all otherwise. */
  function ConMas(d: multiset<int>, id: int, n: nat, dado: bool): multiset<int> {
    d[id := if dado then d[id] + n else 0]
  }

  lemma NoneMore(d: multiset<int>, id: int)
    ensures ConMas(d, id, 0, true) == d && ConMas(d, id, 0, false) == d[id := 0]
  {
  }

  /** The owners after a run of requests, from the owners after the first. */
  lemma OneMore(d: multiset<int>, id: int, n: nat, dado: bool)
    ensures ConMas(d + multiset{id}, id, n, dado) == ConMas(d, id, n + 1, dado)
  {
  }

  /** The requests are all granted if and only if together they are at most the free bytes; then the process
      has one segment more for each, and otherwise none, and everyone else has what they had. */
  lemma {:induction false} AtiendeKeeps(m: Memoria, t: Tabla, id: int, ps: seq<Pedido>, u: Tabla, dado: bool)
    requires Bien(m, t) && Frescos(id, ps, t.segs) && Atiende(m, t, id, ps, u, dado)
    ensures Bien(m, u) && (dado <==> SumaPedidos(ps) + Suma(t.segs) <= m.total)
    ensures dado ==> Suma(u.segs) == Suma(t.segs) + SumaPedidos(ps)
    ensures Duenos(u.segs) == ConMas(Duenos(t.segs), id, |ps|, dado)
    decreases |ps|
  {
    SumaBounded(t.segs, m.total);
    hide Bien, Responde, Claves, Suma, Duenos, Frescos, ConMas;
    if ps == [] {
      NoneMore(Duenos(t.segs), id);
    } else {
      var pila, v :| Responde(m, t, id, ps[0], pila, v) && SigueAtendiendo(m, t, id, ps, v, u, dado);
      FirstFresh(id, ps, t.segs);
      RespondeKeeps(m, t, id, ps[0], pila, v);
      if Dado(m, t.segs, ps[0].tam) {
        StillFresh(id, ps, t.segs, v.segs);
        AtiendeKeeps(m, v, id, ps[1..], u, dado);
        OneMore(Duenos(t.segs), id, |ps| - 1, dado);
      }
    }
  }

  /** A run of quiet requests leaves the named segments of other processes alone. */
  lemma {:induction false} AtiendeQuieto(m: Memoria, t: Tabla, id: int, ps: seq<Pedido>, u: Tabla, dado: bool, N: set<Nombre>)
    requires Bien(m, t) && Frescos(id, ps, t.segs) && (forall k :: k in N ==> k.0 != id)
    requires Atiende(m, t, id, ps, u, dado) && CadenaQuieta(m, t.segs, id, ps, N)
    ensures Conserva(t.store, u.store, N)
    decreases |ps|
  {
    hide Bien, Responde, Sucede, Quieto, Claves, Suma;
    if ps != [] {
      var pila, v :| Responde(m, t, id, ps[0], pila, v) && SigueAtendiendo(m, t, id, ps, v, u, dado);
      QuietoKeeps(m, t, id, ps[0], pila, v, N);
      if Dado(m, t.segs, ps[0].tam) {
        RespondeKeeps(m, t, id, ps[0], pila, v);
        AnswerSucceeds(m, t, id, ps[0], pila, v);
        StillFresh(id, ps, t.segs, v.segs);
        AtiendeQuieto(m, v, id, ps[1..], u, dado, N);
      }
    }
  }

  /** With compaction as it was meant to be, every table is quiet. */
  lemma {:induction false} CopyingIsQuiet(m: Memoria, L: seq<Seg>, id: int, ps: seq<Pedido>, N: set<Nombre>)
    requires m.copia
    ensures CadenaQuieta(m, L, id, ps, N)
    decreases |ps|
  {
    hide Sucede;
    if ps != [] && Dado(m, L, ps[0].tam) {
      forall M | Sucede(m, L, id, ps[0], M)
        ensures CadenaQuieta(m, M, id, ps[1..], N)
      {
        CopyingIsQuiet(m, M, id, ps[1..], N);
      }
    }
  }

  /** An answer keeps every name, and the size of what it names; a granted one adds the new segment. */
  lemma AnswerSizes(m: Memoria, t: Tabla, id: int, p: Pedido, pila: Residuo, u: Tabla)
    requires Bien(m, t) && Responde(m, t, id, p, pila, u) && Dado(m, t.segs, p.tam) && (id, p.dir) !in Claves(t.segs)
    ensures forall k :: k in t.store ==> k in u.store && |u.store[k]| == |t.store[k]|
    ensures (id, p.dir) in u.store && |u.store[(id, p.dir)]| == p.tam
  {
    hide Placement, Compactada, Reordered, Suma;
    var base :| Mira(m, t, p.tam, pila, base) && Agrega(m, base, id, p, u);
    var L, primera :| MiraCon(m, t, p.tam, pila, L, primera, base);
    var r: nat, b: seq<byte> :| AgregaEn(m, base, id, p, u, r, b);
    ReorderedMembers(t.segs, L);
    forall k | k in t.store
      ensures k in base.store && |base.store[k]| == |t.store[k]|
    {
      if primera == -1 && !m.copia {
        assert L[Indice(L, k)] in t.segs;
      }
    }
  }

  lemma ReorderedMembers(L: seq<Seg>, M: seq<Seg>)
    requires Reordered(L, M)
    ensures Claves(L) == Claves(M) && forall x :: x in M <==> x in L
  {
    PermutedNames(L, M);
    SameMembers(L, M);
  }

  /** Every granted request has its segment in the end, with the size that was asked for. */
  lemma {:induction false} AtiendeGrants(m: Memoria, t: Tabla, id: int, ps: seq<Pedido>, u: Tabla)
    requires Bien(m, t) && Frescos(id, ps, t.segs) && Atiende(m, t, id, ps, u, true)
    ensures forall k :: k in t.store ==> k in u.store && |u.store[k]| == |t.store[k]|
    ensures forall i :: 0 <= i < |ps| ==> (id, ps[i].dir) in u.store && |u.store[(id, ps[i].dir)]| == ps[i].tam
    decreases |ps|
  {
    hide Bien, Responde, Claves, Suma;
    if ps != [] {
      var pila, v :| Responde(m, t, id, ps[0], pila, v) && SigueAtendiendo(m, t, id, ps, v, u, true);
      RespondeKeeps(m, t, id, ps[0], pila, v);
      AnswerSizes(m, t, id, ps[0], pila, v);
      StillFresh(id, ps, t.segs, v.segs);
      AtiendeGrants(m, v, id, ps[1..], u);
      forall i | 0 <= i < |ps|
        ensures (id, ps[i].dir) in u.store && |u.store[(id, ps[i].dir)]| == ps[i].tam
      {
        if i > 0 {
          assert ps[i] == ps[1..][i - 1];
        }
      }
    }
  }

  /** `u` comes from `v` by writing the segments of one process. */
  ghost predicate EscribePropias(v: Tabla, u: Tabla, id: int) {
    && u.segs == v.segs && u.store.Keys == v.store.Keys
    && forall k :: k in v.store ==> |u.store[k]| == |v.store[k]| && (k.0 != id ==> u.store[k] == v.store[k])
  }

  /** The names that are not of this process. */
  ghost function Ajenas(L: seq<Seg>, id: int): set<Nombre> {
    set k | k in Claves(L) && k.0 != id
  }

  /** A granted request adds its record to those of the process. */
  lemma AnswerRecords(m: Memoria, t: Tabla, id: int, p: Pedido, pila: Residuo, base: Tabla, u: Tabla)
    requires Mira(m, t, p.tam, pila, base) && Agrega(m, base, id, p, u)
    ensures Fichas(u.segs, id) == Fichas(t.segs, id) + {(TipoSeg(p.tipo), p.dir, p.tam)}
  {
    hide Placement, Compactada, Revuelto, Claves, Fichas;
    var L, primera :| MiraCon(m, t, p.tam, pila, L, primera, base);
    var r: nat, b: seq<byte> :| AgregaEn(m, base, id, p, u, r, b);
    FichasReordered(t.segs, L, id);
    FichasCompactada(L, id);
    FichasAppend(base.segs, NuevoSeg(id, p, r), id);
  }
}
