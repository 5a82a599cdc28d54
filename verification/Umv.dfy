/** The memory server: one array of bytes and the list of segments cut out of it. */
module MemoryServer {
  import opened Bytes
  import opened SegmentTable
  import opened Requests

  datatype Lectura = SegmentFault | Leido(bytes: seq<byte>)

  datatype Escritura = FalloEscritura | Almacenado

  class Umv {
    const mem: array<byte>   // mem_prin, of tam_mem_total bytes
    const copia: bool        // whether line 578 copies from the old place of the segment; in the original it does not
    var segs: seq<Seg>       // list_seg
    var alg: int             // alg_actual

    ghost predicate Valid()
      reads this
    {
      SegmentTable.Valid(segs, mem.Length)
    }

    /** What the clients see: the bytes of each segment, by owner and logical address. */
    ghost function Store(): Almacen
      reads this, mem
      requires Valid()
    {
      Contenido(segs, mem[..])
    }

    function Libre(): int
      reads this
    {
      mem.Length - Suma(segs)
    }

    ghost function Modo(): Memoria
      reads this
    {
      Memoria(copia, alg, mem.Length)
    }

    ghost function Vista(): Tabla
      reads this, mem
      requires Valid()
    {
      Tabla(segs, Store())
    }

    constructor (tamanio: nat, modo: int, copiar: bool)
      ensures Valid() && fresh(mem) && mem.Length == tamanio && segs == [] && alg == modo && copia == copiar
    {
      mem := new byte[tamanio];
      segs := [];
      alg := modo;
      copia := copiar;
    }

    lemma VistaBien()
      requires Valid()
      ensures Bien(Modo(), Vista())
    {
      ContenidoFits(segs, mem[..]);
    }

    /** `ordenar_lista_seg_por_dir_fisica`. */
    method OrdenarListaSeg()
      requires Valid()
      modifies this`segs
      ensures Reordered(old(segs), segs) && Valid() && Store() == old(Store()) && Claves(segs) == old(Claves(segs))
    {
      OrdenadaReorders(segs);
      ContenidoPermuted(segs, Ordenada(segs), mem[..]);
      segs := Ordenada(segs);
    }

    /** `buscar_espacio_mem_prin`: sorts the list and walks over it once. */
    method BuscarEspacioMemPrin(tam: nat) returns (r: int)
      requires Valid()
      modifies this`segs
      ensures Reordered(old(segs), segs) && Valid() && Store() == old(Store()) && Claves(segs) == old(Claves(segs))
      ensures Placement(alg, segs, mem.Length, tam, r)
      ensures alg == FIRST_FIT ==> FirstFit(segs, mem.Length, tam, r) && PrimeroQueCabe(segs, mem.Length, tam, r)
      ensures alg != FIRST_FIT ==> WorstFit(segs, mem.Length, tam, r) && MayorHueco(segs, mem.Length, tam, r)
    {
      hide PrimeroQueCabe, MayorHueco, Contenido;
      OrdenarListaSeg();
      if alg == FIRST_FIT {
        r := PrimerHueco(tam);
        FirstFitLowest(segs, mem.Length, tam, r);
      } else {
        CursorPlace(segs, mem.Length, |segs|);
        r := PeorHueco(tam);
        WorstFitLargest(segs, mem.Length, tam, r);
      }
    }

    method PrimerHueco(tam: nat) returns (r: int)
      ensures FirstFit(segs, mem.Length, tam, r)
    {
      var indMem, j := 0, 0;
      while j < |segs|
        invariant 0 <= j <= |segs| && indMem == Cursor(segs, j)
        invariant forall i :: 0 <= i < j ==> Hueco(segs, mem.Length, i) <= tam
      {
        var seg := segs[j];
        var tamSeg := 0;
        while indMem < seg.dirFisica
          invariant indMem == Cursor(segs, j) + tamSeg
          invariant tamSeg <= tam
          invariant tamSeg > 0 ==> indMem <= seg.dirFisica
        {
          if tamSeg == tam {
            return indMem - tamSeg;
          }
          indMem, tamSeg := indMem + 1, tamSeg + 1;
        }
        indMem := indMem + seg.tam;
        j := j + 1;
      }
      if tam <= mem.Length - indMem {
        return indMem;
      }
      return -1;
    }

    method PeorHueco(tam: nat) returns (r: int)
      requires Cursor(segs, |segs|) <= mem.Length
      ensures WorstFit(segs, mem.Length, tam, r)
    {
      hide Largest, WorstFit;
      LargestStart(segs, mem.Length);
      var indMem, j := 0, 0;
      var posSegMax, tamSegMax := -1, -1;
      ghost var k: nat := 0;
      while j < |segs|
        invariant 0 <= j <= |segs| && k <= j && indMem == Cursor(segs, j) && tamSegMax >= -1
        invariant Largest(segs, mem.Length, j, tamSegMax, k)
        invariant tamSegMax >= 0 ==> posSegMax == Cursor(segs, k)
      {
        LargestStep(segs, mem.Length, j, tamSegMax, k);
        ghost var before := tamSegMax;
        indMem, tamSegMax, posSegMax := RecorrerHueco(indMem, segs[j].dirFisica, tamSegMax, posSegMax);
        k := if tamSegMax > before then j else k;
        indMem := indMem + segs[j].tam;
        j := j + 1;
      }
      LargestIsWorst(segs, mem.Length, tamSegMax, k, tam);
      var tail := mem.Length - indMem;
      if tail > tamSegMax {
        tamSegMax, posSegMax := tail, indMem;
      }
      if tam <= tamSegMax {
        return posSegMax;
      }
      return -1;
    }

    /** The inner loop of worst-fit: it counts the bytes of the hole before counting the last one. */
    static method RecorrerHueco(desde: nat, hasta: nat, tamMax: int, posMax: int)
      returns (indMem: nat, tamSegMax: int, posSegMax: int)
      requires tamMax >= -1
      ensures indMem == Max(desde, hasta)
      ensures tamSegMax == Max(tamMax, indMem - desde - 1)
      ensures posSegMax == if indMem - desde - 1 > tamMax then desde else posMax
    {
      indMem, tamSegMax, posSegMax := desde, tamMax, posMax;
      var tamSeg := 0;
      while indMem < hasta
        invariant indMem == desde + tamSeg && (tamSeg > 0 ==> indMem <= hasta)
        invariant tamSegMax == Max(tamMax, tamSeg - 1)
        invariant posSegMax == if tamSeg - 1 > tamMax then desde else posMax
      {
        if tamSeg > tamSegMax {
          tamSegMax := tamSeg;
          posSegMax := indMem - tamSeg;
        }
        indMem, tamSeg := indMem + 1, tamSeg + 1;
      }
    }

    /** `compactar` as written: line 578 copies from the address of the local pointer, so a segment that
        moves is filled with whatever the stack holds there. */
    method Compactar(pila: Residuo) returns (ghost L: seq<Seg>)
      requires Valid()
      modifies this`segs, mem
      ensures Reordered(old(segs), L) && SegmentTable.Valid(L, mem.Length) && Claves(segs) == old(Claves(segs))
      ensures segs == Compactada(L) && Valid() && Claves(L) == old(Claves(segs))
      ensures Store() == Revuelto(L, old(Store()), pila)
    {
      OrdenarListaSeg();
      L := segs;
      ghost var was := mem[..];
      EmpacarDesdeLaPila(pila);
      PlacedAll(L, segs);
      AllScrambled(L, was, mem[..], pila);
      CompactedNames(L);
    }

    method EmpacarDesdeLaPila(pila: Residuo)
      requires Valid() && Sorted(segs)
      modifies this`segs, mem
      ensures PlacedUpTo(old(segs), segs, |segs|)
      ensures HalfWay(old(segs), |segs|, old(mem[..]), mem[..], Copiado(old(segs), old(mem[..]), pila))
    {
      hide HalfWay, PlacedUpTo, Copiado, SegmentTable.Valid, Sorted;
      ghost var L, was := segs, mem[..];
      var indMem, i := 0, 0;
      CompactionStarts(L, was, Copiado(L, was, pila));
      while i < |segs|
        invariant 0 <= i <= |L| == |segs| && indMem == SumaHasta(L, i)
        invariant PlacedUpTo(L, segs, i)
        invariant HalfWay(L, i, was, mem[..], Copiado(L, was, pila))
      {
        CopiadoAt(L, was, pila, i);
        indMem := MoverDesdeLaPila(i, indMem, pila, L, was, Copiado(L, was, pila));
        i := i + 1;
      }
    }

    method MoverDesdeLaPila(i: nat, indMem: nat, pila: Residuo,
                            ghost L: seq<Seg>, ghost was: seq<byte>, ghost held: seq<seq<byte>>)
      returns (next: nat)
      requires Sorted(L) && SegmentTable.Valid(L, |was|) && i < |L| && indMem == SumaHasta(L, i)
      requires PlacedUpTo(L, segs, i) && HalfWay(L, i, was, mem[..], held) && L[i].Fin() <= |was|
      requires held[i] == if Moves(L, i) then PilaBytes(pila, i, L[i].tam) else Tramo(was, L[i])
      modifies this`segs, mem
      ensures next == SumaHasta(L, i + 1)
      ensures |segs| == |L| && PlacedUpTo(L, segs, i + 1) && HalfWay(L, i + 1, was, mem[..], held)
    {
      var seg := segs[i];
      HalfWayStep(L, i, was, mem[..], held);
      ghost var after := Splice(mem[..], indMem, held[i]);
      PlacedStep(L, segs, i, indMem);
      if indMem == seg.dirFisica {
        HalfWaySource(L, i, was, mem[..]);
        SpliceSame(mem[..], indMem, seg.tam);
        assert mem[..] == after;
      } else {
        Memcpy(mem, indMem, PilaBytes(pila, i, seg.tam));
        assert mem[..] == after;
        segs := segs[i := seg.(dirFisica := indMem)];
      }
      next := indMem + seg.tam;
    }

    /** Compaction with line 578 copying from the old place of the segment, one byte after the other
        upwards, even where the two places overlap. */
    method CompactarCopiando() returns (ghost L: seq<Seg>)
      requires Valid()
      modifies this`segs, mem
      ensures Reordered(old(segs), L) && SegmentTable.Valid(L, mem.Length) && segs == Compactada(L) && Valid()
      ensures Store() == old(Store()) && Claves(L) == old(Claves(segs))
    {
      OrdenarListaSeg();
      L := segs;
      ghost var was := mem[..];
      EmpacarCopiando();
      PlacedAll(L, segs);
      AllIntact(L, was, mem[..]);
    }

    method EmpacarCopiando()
      requires Valid() && Sorted(segs)
      modifies this`segs, mem
      ensures PlacedUpTo(old(segs), segs, |segs|)
      ensures HalfWay(old(segs), |segs|, old(mem[..]), mem[..], Tramos(old(segs), old(mem[..])))
    {
      hide HalfWay, PlacedUpTo, Tramos, SegmentTable.Valid, Sorted;
      ghost var L, was := segs, mem[..];
      var indMem, i := 0, 0;
      CompactionStarts(L, was, Tramos(L, was));
      while i < |segs|
        invariant 0 <= i <= |L| == |segs| && indMem == SumaHasta(L, i)
        invariant PlacedUpTo(L, segs, i)
        invariant HalfWay(L, i, was, mem[..], Tramos(L, was))
      {
        TramosAt(L, was, i);
        indMem := MoverCopiando(i, indMem, L, was, Tramos(L, was));
        i := i + 1;
      }
    }

    method MoverCopiando(i: nat, indMem: nat, ghost L: seq<Seg>, ghost was: seq<byte>, ghost held: seq<seq<byte>>)
      returns (next: nat)
      requires Sorted(L) && SegmentTable.Valid(L, |was|) && i < |L| && indMem == SumaHasta(L, i)
      requires PlacedUpTo(L, segs, i) && HalfWay(L, i, was, mem[..], held) && L[i].Fin() <= |was|
      requires held[i] == Tramo(was, L[i])
      modifies this`segs, mem
      ensures next == SumaHasta(L, i + 1)
      ensures |segs| == |L| && PlacedUpTo(L, segs, i + 1) && HalfWay(L, i + 1, was, mem[..], held)
    {
      var seg := segs[i];
      HalfWayStep(L, i, was, mem[..], held);
      ghost var after := Splice(mem[..], indMem, held[i]);
      PlacedStep(L, segs, i, indMem);
      HalfWaySource(L, i, was, mem[..]);
      assert mem[..][seg.dirFisica..seg.dirFisica + seg.tam] == held[i];
      if indMem == seg.dirFisica {
        SpliceSame(mem[..], indMem, seg.tam);
        assert mem[..] == after;
      } else {
        PackedPlace(L, mem.Length, i);
        CopiarAbajo(indMem, seg.dirFisica, seg.tam);
        assert mem[..] == after;
        segs := segs[i := seg.(dirFisica := indMem)];
      }
      next := indMem + seg.tam;
    }

    method CopiarAbajo(dir: nat, desde: nat, tam: nat)
      requires tam > 0 ==> dir < desde
      requires desde + tam <= mem.Length && dir + tam <= mem.Length
      modifies mem
      ensures mem[..] == Splice(old(mem[..]), dir, old(mem[..])[desde..desde + tam])
    {
      ghost var was := mem[..];
      for k := 0 to tam
        invariant forall x :: 0 <= x < dir ==> mem[x] == was[x]
        invariant mem[dir..dir + k] == was[desde..desde + k]
        invariant forall x :: dir + k <= x < mem.Length ==> mem[x] == was[x]
      {
        ghost var done := mem[dir..dir + k];
        mem[dir + k] := mem[desde + k];
        assert mem[dir..dir + k + 1] == done + [was[desde + k]];
      }
    }

    /** `compactar`, as written or as it was meant to be. */
    method CompactarSegunModo(pila: Residuo) returns (ghost L: seq<Seg>)
      requires Valid()
      modifies this`segs, mem
      ensures Reordered(old(segs), L) && SegmentTable.Valid(L, mem.Length) && Claves(L) == old(Claves(segs))
      ensures Valid() && Vista() == Compacta(Modo(), L, old(Store()), pila)
    {
      if copia {
        L := CompactarCopiando();
      } else {
        L := Compactar(pila);
      }
    }

    /** The search of `crearSegmento`: look, and if there is no place compact and look again. `L` is the
        table in address order and `primera` the answer of the first look. */
    method BuscarOCompactar(tam: nat, pila: Residuo) returns (r: int, ghost primera: int, ghost L: seq<Seg>)
      requires Valid()
      modifies this`segs, mem
      ensures Valid() && MiraCon(Modo(), old(Vista()), tam, pila, L, primera, Vista())
      ensures Sorted(segs) && Placement(alg, segs, mem.Length, tam, r)
      ensures r != -1 <==> tam <= old(Libre())
      ensures primera != -1 ==> r == primera && mem[..] == old(mem[..])
    {
      hide Compactada, Placement, Revuelto, Claves, Contenido, Suma, Duenos, SegmentTable.Valid;
      ghost var t := Vista();
      VistaBien();
      r := BuscarEspacioMemPrin(tam);
      primera, L := r, segs;
      PermutedNames(t.segs, L);
      NamesOfStore(t);
      if r == -1 {
        ghost var M := CompactarSegunModo(pila);
        CompactedTable(L, mem.Length);
        r := BuscarEspacioMemPrin(tam);
        SearchAfterCompaction(alg, L, mem.Length, tam, r);
      } else {
        ghost var k := PlacementIsAHole(alg, L, mem.Length, tam, r);
      }
    }

    lemma NamesOfStore(t: Tabla)
      requires Bien(Modo(), t)
      ensures t.store.Keys == Claves(t.segs)
    {
    }

    /** `crearSegmento`: succeeds exactly when the request is at most the free bytes, however fragmented the memory
        is. `base` is the server after the look. If the table is quiet for the request, which it always is when
        compaction copies, no other process loses a byte. */
    method CrearSegmento(tipo: int, idProg: int, tam: nat, dirLogica: int, pila: Residuo)
      returns (r: int, ghost base: Tabla)
      requires Valid()
      requires dirLogica >= 0 && (idProg, dirLogica) !in Claves(segs)   // rand()
      modifies this`segs, mem
      ensures Valid() && Mira(Modo(), old(Vista()), tam, pila, base)
      ensures r == if tam <= old(Libre()) then dirLogica else -1
      ensures r == -1 ==> Vista() == base
      ensures r != -1 ==> Agrega(Modo(), base, idProg, Pedido(tipo, tam, dirLogica), Vista())
      ensures Quieto(Modo(), old(segs), tam, Ajenas(old(segs), idProg)) ==>
        Conserva(old(Store()), Store(), Ajenas(old(segs), idProg))
    {
      hide Contenido, Claves, Revuelto, Suma, Duenos, Placement, Reordered, Compactada, SegmentTable.Valid, Tramo;
      hide Quieto, Conserva, Bien, Ajenas;
      VistaBien();
      ghost var t, N, p := Vista(), Ajenas(segs, idProg), Pedido(tipo, tam, dirLogica);
      ghost var primera, L;
      r, primera, L := BuscarOCompactar(tam, pila);
      base := Vista();
      assert Mira(Modo(), t, tam, pila, base);
      MiraKeeps(Modo(), t, tam, pila, base);
      if r != -1 {
        ghost var k := PlacementIsAHole(alg, segs, mem.Length, tam, r);
        var seg := Seg(idProg, dirLogica, r, tam, TipoSeg(tipo));
        ListAdd(seg, k);
        assert AgregaEn(Modo(), base, idProg, p, Vista(), r, Tramo(mem[..], seg));
        r := dirLogica;
      }
      OthersKept(t, pila, base, p, idProg);
    }

    /** What the look keeps, the answer keeps. */
    lemma OthersKept(t: Tabla, pila: Residuo, base: Tabla, p: Pedido, idProg: int)
      requires Valid() && Bien(Modo(), t) && Mira(Modo(), t, p.tam, pila, base)
      requires Vista() == base || Agrega(Modo(), base, idProg, p, Vista())
      ensures Quieto(Modo(), t.segs, p.tam, Ajenas(t.segs, idProg)) ==> Conserva(t.store, Store(), Ajenas(t.segs, idProg))
    {
      hide Contenido, Claves, Revuelto, Placement, Compactada, SegmentTable.Valid, Quieto, Bien, Mira;
      var N := Ajenas(t.segs, idProg);
      if Quieto(Modo(), t.segs, p.tam, N) {
        LookKeeps(Modo(), t, p.tam, pila, base, N);
      }
    }

    method ListAdd(seg: Seg, ghost k: nat)
      requires Valid() && Sorted(segs) && seg.Clave() !in Claves(segs)
      requires k <= |segs| && seg.dirFisica == Cursor(segs, k) && seg.tam <= Hueco(segs, mem.Length, k)
      requires k < |segs| ==> seg.tam < Hueco(segs, mem.Length, k)
      modifies this`segs
      ensures Valid() && segs == old(segs) + [seg] && seg.Fin() <= mem.Length
      ensures Suma(segs) == old(Suma(segs)) + seg.tam && Duenos(segs) == old(Duenos(segs)) + multiset{seg.idProc}
      ensures Claves(segs) == old(Claves(segs)) + {seg.Clave()}
      ensures Store() == old(Store())[seg.Clave() := Tramo(mem[..], seg)]
    {
      Appended(segs, mem[..], k, seg);
      segs := segs + [seg];
    }

    /** `destruirSegmentos`: every segment of one process, or all of them for process 0. */
    method DestruirSegmentos(idProg: int)
      requires Valid()
      modifies this`segs
      ensures Valid()
      ensures idProg == 0 ==> segs == []
      ensures idProg != 0 ==> segs == SinProceso(old(segs), idProg)
      ensures idProg != 0 ==> Store() == map k | k in old(Store()) && k.0 != idProg :: old(Store())[k]
    {
      if idProg == 0 {
        segs := [];
        return;
      }
      ghost var was := segs;
      ContenidoSinProceso(was, mem[..], idProg);
      var i: nat := IndiceProceso(idProg);
      while i < |segs|
        invariant i <= |segs| && SinProceso(segs, idProg) == SinProceso(was, idProg)
        invariant i < |segs| ==> segs[i].idProc == idProg
        invariant i == |segs| ==> forall j :: 0 <= j < |segs| ==> segs[j].idProc != idProg
        decreases |segs|
      {
        SinProcesoDrop(segs, i, idProg);
        segs := segs[..i] + segs[i + 1..];
        i := IndiceProceso(idProg);
      }
      SinProcesoNone(segs, idProg);
    }

    /** `gestionar_ped_seg`: one more segment of the process, or none of them; and if the table is quiet for the
        request no other process loses a byte. */
    method GestionarPedSeg(tipo: int, idProg: int, tam: nat, dirLogica: int, pila: Residuo) returns (r: int)
      requires Valid() && idProg != 0
      requires dirLogica >= 0 && (idProg, dirLogica) !in Claves(segs)
      modifies this`segs, mem
      ensures Valid() && Responde(Modo(), old(Vista()), idProg, Pedido(tipo, tam, dirLogica), pila, Vista())
      ensures r == if tam <= old(Libre()) then dirLogica else -1
      ensures r != -1 ==> Libre() == old(Libre()) - tam && Claves(segs) == old(Claves(segs)) + {(idProg, dirLogica)}
      ensures r != -1 ==> Duenos(segs) == old(Duenos(segs)) + multiset{idProg}
      ensures r != -1 ==> Fichas(segs, idProg) == old(Fichas(segs, idProg)) + {(TipoSeg(tipo), dirLogica, tam)}
      ensures r == -1 ==> Duenos(segs) == old(Duenos(segs))[idProg := 0]
      ensures Quieto(Modo(), old(segs), tam, Ajenas(old(segs), idProg)) ==>
        Conserva(old(Store()), Store(), Ajenas(old(segs), idProg))
    {
      hide Contenido, Claves, Revuelto, Suma, Duenos, Placement, Compactada, SegmentTable.Valid, Tramo, Fichas, SinProceso;
      hide Mira, Agrega, Quieto, Conserva, Bien, Ajenas;
      VistaBien();
      ghost var t, p := Vista(), Pedido(tipo, tam, dirLogica);
      ghost var base;
      r, base := CrearSegmento(tipo, idProg, tam, dirLogica, pila);
      if r == -1 {
        DestruirSegmentos(idProg);
        assert Vista() == Sin(base, idProg);
      } else {
        AnswerRecords(Modo(), t, idProg, p, pila, base, Vista());
      }
      assert Responde(Modo(), t, idProg, p, pila, Vista());
      RespondeKeeps(Modo(), t, idProg, p, pila, Vista());
      QuietForOthers(t, idProg, p, pila);
    }

    lemma QuietForOthers(t: Tabla, idProg: int, p: Pedido, pila: Residuo)
      requires Valid() && Bien(Modo(), t) && Responde(Modo(), t, idProg, p, pila, Vista())
      ensures Quieto(Modo(), t.segs, p.tam, Ajenas(t.segs, idProg)) ==> Conserva(t.store, Store(), Ajenas(t.segs, idProg))
    {
      hide Contenido, Claves, Quieto, Conserva, Bien, Responde, SegmentTable.Valid;
      if Quieto(Modo(), t.segs, p.tam, Ajenas(t.segs, idProg)) {
        QuietoKeeps(Modo(), t, idProg, p, pila, Vista(), Ajenas(t.segs, idProg));
      }
    }

    /** The first segment of the process in list order, or the length of the list. */
    method IndiceProceso(idProg: int) returns (i: nat)
      ensures i <= |segs|
      ensures i < |segs| ==> segs[i].idProc == idProg
      ensures i == |segs| ==> forall j :: 0 <= j < |segs| ==> segs[j].idProc != idProg
    {
      i := 0;
      while i < |segs| && segs[i].idProc != idProg
        invariant i <= |segs| && forall j :: 0 <= j < i ==> segs[j].idProc != idProg
      {
        i := i + 1;
      }
    }

    /** `buscar_segmento_dir_logica`. */
    method BuscarSegmentoDirLogica(idProc: int, dirLogica: int) returns (r: Option<Seg>)
      requires Valid()
      ensures r.Some? <==> (idProc, dirLogica) in Claves(segs)
      ensures r.Some? ==> r.value in segs && r.value.Clave() == (idProc, dirLogica)
    {
      var i := 0;
      while i < |segs|
        invariant i <= |segs| && forall j :: 0 <= j < i ==> segs[j].Clave() != (idProc, dirLogica)
      {
        if segs[i].dirLogica == dirLogica && segs[i].idProc == idProc {
          assert segs[i].Clave() in Claves(segs);
          return Some(segs[i]);
        }
        i := i + 1;
      }
      return None;
    }

    /** `buscar_segmento_tipo_seg`: the first in list order. */
    method BuscarSegmentoTipoSeg(idProc: int, tipo: int) returns (r: Option<Seg>)
      ensures r.None? ==> forall x :: x in segs ==> x.tipo != tipo || x.idProc != idProc
      ensures r.Some? ==> r.value in segs && r.value.tipo == tipo && r.value.idProc == idProc
    {
      var i := 0;
      while i < |segs|
        invariant i <= |segs| && forall j :: 0 <= j < i ==> segs[j].tipo != tipo || segs[j].idProc != idProc
      {
        if segs[i].tipo == tipo && segs[i].idProc == idProc {
          return Some(segs[i]);
        }
        i := i + 1;
      }
      return None;
    }

    /** `solicitar_bytes`: the bytes of the named segment at that offset, or a fault exactly when they are not
        all inside it. A name that no segment has is answered with an uninitialised buffer, `basura`. */
    method SolicitarBytes(idProc: int, base: int, offset: int, tam: nat, basura: seq<byte>) returns (r: Lectura)
      requires Valid() && |basura| == tam
      ensures base < 0 ==> r == SegmentFault
      ensures base >= 0 && (idProc, base) in Store() ==>
        var s := Store()[(idProc, base)];
        r == if 0 <= offset && offset + tam <= |s| then Leido(s[offset..offset + tam]) else SegmentFault
      ensures base >= 0 && (idProc, base) !in Store() ==>
        r == if offset < 0 || offset > mem.Length || tam > mem.Length then SegmentFault else Leido(basura)
    {
      var buscado := BuscarSegmentoDirLogica(idProc, base);
      if buscado.Some? {
        ContenidoAt(segs, mem[..], buscado.value);
      }
      if offset < 0 || base < 0 || offset > mem.Length || tam > mem.Length {
        return SegmentFault;
      }
      if buscado.None? {
        return Leido(basura);
      }
      var seg := buscado.value;
      var pos := seg.dirFisica + offset;
      if seg.tam < offset + tam {
        return SegmentFault;
      }
      r := Leido(mem[pos..pos + tam]);
      TramoPart(mem[..], seg, offset, tam);
    }

    /** `almacenar_bytes`: writes inside the named segment, or faults exactly when the bytes do not all fit
        in it; nothing else in the store changes. */
    method AlmacenarBytes(idProc: int, base: int, offset: int, buffer: seq<byte>) returns (r: Escritura)
      requires Valid()
      requires base >= 0 && 0 <= offset <= mem.Length && |buffer| <= mem.Length ==> (idProc, base) in Claves(segs)
      modifies mem
      ensures Valid()
      ensures r.Almacenado? <==>
                && base >= 0 && offset >= 0 && (idProc, base) in old(Store())
                && offset + |buffer| <= |old(Store())[(idProc, base)]|
      ensures r.Almacenado? ==>
                Store() == old(Store())[(idProc, base) := Splice(old(Store())[(idProc, base)], offset, buffer)]
      ensures r.FalloEscritura? ==> Store() == old(Store())
    {
      hide Contenido, SegmentTable.Valid, Splice;
      ContenidoNames(segs, mem[..]);
      var buscado := BuscarSegmentoDirLogica(idProc, base);
      if buscado.Some? {
        ContenidoAt(segs, mem[..], buscado.value);
        InsideMemory(segs, mem.Length, buscado.value);
      }
      if offset < 0 || base < 0 || offset > mem.Length || |buffer| > mem.Length {
        return FalloEscritura;
      }
      var seg := buscado.value;
      var pos := seg.dirFisica + offset;
      if seg.tam < offset + |buffer| {
        return FalloEscritura;
      }
      ContenidoWritten(segs, mem[..], seg, offset, buffer);
      Memcpy(mem, pos, buffer);
      return Almacenado;
    }

    /** A read, a write and the read again: what was written is read back, and every read that shares no byte with
        it, of the same segment or of any other of any process, and every read around a write that faults, returns
        what it returned before. */
    method LecturaTrasEscritura(idProc: int, base: int, offset: int, buffer: seq<byte>,
                                otro: int, otraBase: int, desde: int, tam: nat) returns (w: Escritura, antes: Lectura, luego: Lectura)
      requires Valid() && (idProc, base) in Claves(segs) && (otro, otraBase) in Claves(segs)
      modifies mem
      ensures Valid()
      ensures w.Almacenado? && (otro, otraBase, desde, tam) == (idProc, base, offset, |buffer|) ==> luego == Leido(buffer)
      ensures w.FalloEscritura? || (otro, otraBase) != (idProc, base) || desde + tam <= offset || offset + |buffer| <= desde ==>
        luego == antes
    {
      hide Contenido, SegmentTable.Valid, Splice;
      ContenidoNames(segs, mem[..]);
      ghost var A, k := Store(), (idProc, base);
      var basura := seq(tam, i => 0);
      antes := SolicitarBytes(otro, otraBase, desde, tam, basura);
      w := AlmacenarBytes(idProc, base, offset, buffer);
      luego := SolicitarBytes(otro, otraBase, desde, tam, basura);
      if w.Almacenado? && 0 <= desde && desde + tam <= |A[k]| {
        SpliceRead(A[k], offset, buffer, desde, tam);
      }
    }

    /** `almacenar_segmento`: fills the segment of that type, found by type, when the size is exactly right.
        What it stored is what a read by logical address then returns. */
    method AlmacenarSegmento(idProc: int, tipo: int, dato: seq<byte>) returns (ghost destino: Option<Seg>)
      requires Valid()
      modifies mem
      ensures Valid()
      ensures destino.None? ==> Store() == old(Store())
      ensures destino.None? && (exists x :: x in segs && x.tipo == tipo && x.idProc == idProc) ==>
        exists y :: y in segs && y.tipo == tipo && y.idProc == idProc && y.tam != |dato|
      ensures destino.Some? ==> destino.value in segs && destino.value.tipo == tipo && destino.value.idProc == idProc
      ensures destino.Some? ==> destino.value.tam == |dato| && Store() == old(Store())[destino.value.Clave() := dato]
    {
      var buscado := BuscarSegmentoTipoSeg(idProc, tipo);
      if buscado.None? {
        return None;
      }
      var seg := buscado.value;
      if |dato| != seg.tam {
        return None;
      }
      ContenidoAt(segs, mem[..], seg);
      ContenidoWritten(segs, mem[..], seg, 0, dato);
      assert Splice(Store()[seg.Clave()], 0, dato) == dato;
      Memcpy(mem, seg.dirFisica, dato);
      return Some(seg);
    }
  }
}
