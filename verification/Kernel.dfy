/** The kernel process: its queues and lists changed in place, handler by handler, and the memory it asks for. */
module KernelProcess {
  import opened Bytes
  import opened Wire
  import opened Scheduler
  import opened Invariant
  import opened Steps
  import opened Requests
  import Order
  import SegmentTable
  import MemoryServer

  /** What `metadata_desde_literal` yields of a script: the bytes of its three segments, where it starts,
      and the weight `calcular_peso` gives it. */
  datatype Programa = Programa(codigo: seq<byte>, etiquetas: seq<byte>, indice: seq<byte>, inicio: int, peso: int)

  /** The logical addresses `rand()` will give the four segments. */
  datatype Direcciones = Direcciones(codigo: nat, etiquetas: nat, indice: nat, stack: nat)

  predicate Distintas(d: Direcciones) {
    && d.codigo != d.etiquetas && d.codigo != d.indice && d.codigo != d.stack
    && d.etiquetas != d.indice && d.etiquetas != d.stack && d.indice != d.stack
  }

  /** Bytes the four segments of a program take. */
  function Demanda(p: Programa, tamStack: nat): nat {
    |p.codigo| + |p.etiquetas| + |p.indice| + tamStack
  }

  /** The four requests of `solicitar_mem`. */
  function Pedidos(p: Programa, tamStack: nat, d: Direcciones): seq<Pedido> {
    [Pedido(PED_MEM_SEG_COD, |p.codigo|, d.codigo), Pedido(PED_MEM_IND_ETI, |p.etiquetas|, d.etiquetas),
     Pedido(PED_MEM_IND_COD, |p.indice|, d.indice), Pedido(PED_MEM_SEG_STACK, tamStack, d.stack)]
  }

  lemma PedidosFrescos(p: Programa, tamStack: nat, d: Direcciones, id: int, L: seq<SegmentTable.Seg>)
    requires Distintas(d) && id !in SegmentTable.Duenos(L)
    ensures Frescos(id, Pedidos(p, tamStack, d), L)
  {
    SegmentTable.OwnsNothing(L, id);
  }

  lemma PedidosSuman(p: Programa, tamStack: nat, d: Direcciones)
    ensures SumaPedidos(Pedidos(p, tamStack, d)) == Demanda(p, tamStack)
  {
    var ps := Pedidos(p, tamStack, d);
    assert SumaPedidos(ps[1..]) == ps[1].tam + SumaPedidos(ps[2..]) && SumaPedidos(ps[2..]) == ps[2].tam + SumaPedidos(ps[3..]);
    assert SumaPedidos(ps[3..]) == ps[3].tam;
  }

  /** What the four requests of a new process come to. */
  lemma AdmissionRequests(m: Memoria, t: Tabla, id: int, p: Programa, tamStack: nat, d: Direcciones, u: Tabla, ok: bool)
    requires Bien(m, t) && id !in SegmentTable.Duenos(t.segs) && Distintas(d)
    requires Atiende(m, t, id, Pedidos(p, tamStack, d), u, ok)
    ensures ok <==> Demanda(p, tamStack) + SegmentTable.Suma(t.segs) <= m.total
    ensures ok ==> SegmentTable.Suma(u.segs) == SegmentTable.Suma(t.segs) + Demanda(p, tamStack)
    ensures SegmentTable.Duenos(u.segs) == SegmentTable.Duenos(t.segs)[id := if ok then 4 else 0]
    ensures CadenaQuieta(m, t.segs, id, Pedidos(p, tamStack, d), Ajenas(t.segs, id)) ==>
      Conserva(t.store, u.store, Ajenas(t.segs, id))
  {
    hide SegmentTable.Duenos, SegmentTable.Suma, Atiende, Conserva, Bien, Frescos, CadenaQuieta, Demanda, SumaPedidos;
    var ps := Pedidos(p, tamStack, d);
    PedidosFrescos(p, tamStack, d, id, t.segs);
    PedidosSuman(p, tamStack, d);
    AtiendeKeeps(m, t, id, ps, u, ok);
    if CadenaQuieta(m, t.segs, id, ps, Ajenas(t.segs, id)) {
      AtiendeQuieto(m, t, id, ps, u, ok, Ajenas(t.segs, id));
    }
  }

  /** The four segments of an admitted program. */
  ghost function Cuatro(p: Programa, tamStack: nat, d: Direcciones): set<SegmentTable.Ficha> {
    {(CODIGO_SCRIPT, d.codigo, |p.codigo|), (IND_ETI_FUNC, d.etiquetas, |p.etiquetas|),
     (IND_COD, d.indice, |p.indice|), (IND_STACK, d.stack, tamStack)}
  }

  lemma IoTerminado(s: Estado, d: nat)
    requires Posible(s, IoTermina(d))
    ensures d < |s.disps| && s.disps[d].sirviendo.Some?
    ensures var t := s.(disps := s.disps[d := s.disps[d].(sirviendo := None)]);
            Paso(s, IoTermina(d)) == Some(Desbloqueado(t, s.disps[d].sirviendo.value))
  {
  }

  lemma NothingWritten(v: Tabla, id: int)
    ensures EscribePropias(v, v, id)
  {
  }

  /** The server after the three writes of an admission. */
  ghost function Escrita(v: Tabla, id: int, p: Programa, d: Direcciones): Tabla {
    v.(store := v.store[(id, d.codigo) := p.codigo][(id, d.etiquetas) := p.etiquetas][(id, d.indice) := p.indice])
  }

  /** The writes stay inside the segments that were granted, and so leave everyone else what the requests left. */
  lemma WritesAreOwn(m: Memoria, t: Tabla, v: Tabla, id: int, p: Programa, tamStack: nat, d: Direcciones)
    requires Bien(m, t) && id !in SegmentTable.Duenos(t.segs) && Distintas(d)
    requires Atiende(m, t, id, Pedidos(p, tamStack, d), v, true)
    ensures EscribePropias(v, Escrita(v, id, p, d), id)
    ensures Conserva(t.store, v.store, Ajenas(t.segs, id)) ==> Conserva(t.store, Escrita(v, id, p, d).store, Ajenas(t.segs, id))
  {
    hide Bien, Atiende, Frescos, SegmentTable.Duenos;
    var ps := Pedidos(p, tamStack, d);
    PedidosFrescos(p, tamStack, d, id, t.segs);
    AtiendeGrants(m, t, id, ps, v);
    assert ps[0].dir == d.codigo && ps[1].dir == d.etiquetas && ps[2].dir == d.indice;
  }

  lemma LasCuatro(p: Programa, tamStack: nat, d: Direcciones)
    ensures {} + {(TipoSeg(PED_MEM_SEG_COD), d.codigo, |p.codigo|)} + {(TipoSeg(PED_MEM_IND_ETI), d.etiquetas, |p.etiquetas|)}
      + {(TipoSeg(PED_MEM_IND_COD), d.indice, |p.indice|)} + {(TipoSeg(PED_MEM_SEG_STACK), d.stack, tamStack)}
      == Cuatro(p, tamStack, d)
  {
  }

  /** The control block of a program that has not run yet. */
  function PcbInicial(p: Programa, d: Direcciones, id: int, sobra: int): Pcb {
    Pcb(0, d.stack, d.indice, d.etiquetas, d.codigo, d.stack, id, p.inicio, |p.etiquetas|, sobra)
  }

  lemma PcbNuevo(p: Programa, d: Direcciones, id: int, sobra: int)
    ensures var q := PcbInicial(p, d, id, sobra); q.(id := id, cantVar := 0, dirCont := q.dirSegStack) == q
  {
  }

  /** A queue after popping and pushing back `i` entries. */
  ghost function Rotada(q: seq<Proceso>, i: nat): (r: seq<Proceso>)
    requires i <= |q|
    ensures |r| == |q|
  {
    q[i..] + q[..i]
  }

  lemma Gira(q: seq<Proceso>, i: nat)
    requires i < |q|
    ensures Rotada(q, i)[0] == q[i]
    ensures Rotada(q, i)[1..] == Girada(q, i)
    ensures Girada(q, i) + [q[i]] == Rotada(q, i + 1)
  {
  }

  /** No turn and a full turn leave the queue as it is. */
  lemma VueltaEntera(q: seq<Proceso>)
    ensures Rotada(q, 0) == q && Rotada(q, |q|) == q
  {
  }

  lemma PesoMinHasta(q: seq<Proceso>, i: nat)
    requires i < |q|
    ensures PesoMin(q[..i + 1]) == if PesoMin(q[..i]) > q[i].peso then q[i].peso else PesoMin(q[..i])
  {
    assert q[..i + 1][..i] == q[..i];
  }

  class Kernel {
    const umv: MemoryServer.Umv
    var nuevos: seq<Proceso>
    var listos: seq<Proceso>
    var exec: seq<Proceso>
    var block: seq<Proceso>
    var exit: seq<Proceso>
    var cpus: seq<Cpu>
    var cantNew: nat
    var cantReady: nat
    var cantExit: nat
    var cantMultiprog: nat
    var cantLibres: nat
    var sems: seq<Semaforo>
    var disps: seq<Dispositivo>
    var contador: nat
    var newReady: Fase
    var readyExec: Fase
    var saliendo: bool
    var errores: nat

    /** The state of the step machine; the owners of segments are read off the memory server. */
    ghost function Vista(): Estado
      reads this, umv
    {
      Estado(nuevos, listos, exec, block, exit, cpus, cantNew, cantReady, cantExit, cantMultiprog, cantLibres,
             sems, disps, contador, SegmentTable.Duenos(umv.segs), newReady, readyExec, saliendo, errores)
    }

    constructor (servidor: MemoryServer.Umv, multiprog: nat, valores: seq<int>, cantDisps: nat)
      requires servidor.segs == []
      ensures umv == servidor && Vista() == Inicial(multiprog, valores, cantDisps)
    {
      umv := servidor;
      nuevos, listos, exec, block, exit, cpus := [], [], [], [], [], [];
      cantNew, cantReady, cantExit, cantMultiprog, cantLibres := 0, 0, 0, multiprog, 0;
      sems := seq(|valores|, i requires 0 <= i < |valores| => Semaforo(valores[i], []));
      disps := seq(cantDisps, i => Dispositivo([], 0, None));
      contador, newReady, readyExec, saliendo, errores := 0, Esperando, Esperando, false, 0;
    }

    // ---- Searches by rotation ----

    /** `get_peso_min` */
    method GetPesoMin() returns (r: Option<Proceso>)
      modifies this`nuevos
      ensures (nuevos, r) == MasLiviano(old(nuevos))
      ensures Order.Elegido(old(nuevos), nuevos, r)
    {
      hide Girada, Rotada, PesoMin, Order.Elegido;
      Order.LightestTaken(nuevos);
      var pesoMin := MedirPesos();
      ghost var q := nuevos;
      var tam, i := |nuevos|, 0;
      VueltaEntera(q);
      while i < tam
        invariant 0 <= i <= tam == |q| && nuevos == Rotada(q, i)
        invariant forall j :: 0 <= j < i ==> !Cumple(q[j], PorPeso(pesoMin))
      {
        Gira(q, i);
        var aux := nuevos[0];
        nuevos := nuevos[1..];
        if pesoMin == aux.peso {
          assert Cumple(q[i], PorPeso(pesoMin));
          return Some(aux);
        }
        nuevos := nuevos + [aux];
        i := i + 1;
      }
      return None;
    }

    /** The first loop of `get_peso_min`: a full turn of the queue. */
    method MedirPesos() returns (pesoMin: int)
      modifies this`nuevos
      ensures nuevos == old(nuevos) && pesoMin == PesoMin(nuevos)
    {
      hide Girada, Rotada, Primero;
      ghost var q := nuevos;
      pesoMin := 1000000;
      var tam, i := |nuevos|, 0;
      VueltaEntera(q);
      while i < tam
        invariant 0 <= i <= tam == |q| && nuevos == Rotada(q, i) && pesoMin == PesoMin(q[..i])
      {
        Gira(q, i);
        PesoMinHasta(q, i);
        var aux := nuevos[0];
        nuevos := nuevos[1..];
        if pesoMin > aux.peso {
          pesoMin := aux.peso;
        }
        nuevos := nuevos + [aux];
        i := i + 1;
      }
      assert q[..tam] == q;
    }

    /** `get_pcb_otros_exec` */
    method GetPcbOtrosExec(id: int) returns (r: Option<Proceso>)
      modifies this`exec
      ensures var q, i := old(exec), Primero(old(exec), PorId(id));
              && (r.None? <==> i == |q|)
              && (r.None? ==> exec == q)
              && (r.Some? ==> r.value == q[i] && exec == Girada(q, i))
    {
      hide Girada, Rotada;
      ghost var q := exec;
      VueltaEntera(q);
      var tam, i := |exec|, 0;
      while i < tam
        invariant 0 <= i <= tam == |q| && exec == Rotada(q, i)
        invariant forall j :: 0 <= j < i ==> !Cumple(q[j], PorId(id))
      {
        Gira(q, i);
        var aux := exec[0];
        exec := exec[1..];
        if id == aux.pcb.id {
          assert Cumple(q[i], PorId(id));
          return Some(aux);
        }
        exec := exec + [aux];
        i := i + 1;
      }
      return None;
    }

    /** The loop of `pasar_pcbBlock_ready`. */
    method SacarDeBlock(id: int) returns (r: Option<Proceso>)
      modifies this`block
      ensures var q, i := old(block), Primero(old(block), PorId(id));
              && (r.None? <==> i == |q|)
              && (r.None? ==> block == q)
              && (r.Some? ==> r.value == q[i] && block == Girada(q, i))
    {
      hide Girada, Rotada;
      ghost var q := block;
      VueltaEntera(q);
      var tam, i := |block|, 0;
      while i < tam
        invariant 0 <= i <= tam == |q| && block == Rotada(q, i)
        invariant forall j :: 0 <= j < i ==> !Cumple(q[j], PorId(id))
      {
        Gira(q, i);
        var aux := block[0];
        block := block[1..];
        if aux.pcb.id == id {
          assert Cumple(q[i], PorId(id));
          return Some(aux);
        } else {
          block := block + [aux];
        }
        i := i + 1;
      }
      return None;
    }

    /** `pasar_pcbBlock_ready` */
    method PasarPcbBlockReady(id: int)
      modifies this`block, this`listos, this`cantReady, this`errores
      ensures Vista() == Desbloqueado(old(Vista()), id)
    {
      hide Girada, Primero, Cumple, AListos;
      var r := SacarDeBlock(id);
      PasarOReportar(r);
    }

    /** `buscar_pcb`, on any of the queues. */
    method BuscarPcb(cola: seq<Proceso>, soc: int) returns (resto: seq<Proceso>, r: Option<Proceso>)
      ensures (resto, r) == Salido(cola, soc)
    {
      hide Girada, Rotada;
      resto := cola;
      VueltaEntera(cola);
      var i := 0;
      while i < |resto|
        invariant 0 <= i <= |cola| == |resto| && resto == Rotada(cola, i)
        invariant forall j :: 0 <= j < i ==> !Cumple(cola[j], PorSocket(soc))
      {
        Gira(cola, i);
        var ret := resto[0];
        if ret.socket == soc {
          assert Cumple(cola[i], PorSocket(soc));
          return resto[1..], Some(ret);
        }
        resto := resto[1..] + [ret];
        i := i + 1;
      }
      return resto, None;
    }

    // ---- Shared by the handlers ----

    method PasarPcbExit(p: Option<Proceso>)
      modifies this`exit, this`cantExit, this`cantMultiprog
      ensures Vista() == ASalidaSi(old(Vista()), p)
    {
      if p.None? {
        return;
      }
      exit := exit + [p.value];
      cantExit := cantExit + 1;
      cantMultiprog := cantMultiprog + 1;
    }

    method PasarPcbReady(p: Proceso)
      modifies this`listos, this`cantReady
      ensures Vista() == AListos(old(Vista()), p)
    {
      listos := listos + [p];
      cantReady := cantReady + 1;
    }

    method LiberarCpu(c: Cpu)
      modifies this`cpus, this`cantLibres
      ensures Vista() == Libera(old(Vista()), c)
    {
      cpus := cpus + [c.(idExec := 0, socProg := 0)];
      cantLibres := cantLibres + 1;
    }

    /** `get_cpu_soc_cpu_remove` and `get_pcb_otros_exec`; None when either returns a null pointer, which the
        callers follow. */
    method Desalojar(soc: int) returns (r: Option<(Cpu, Proceso)>)
      modifies this`cpus, this`exec
      ensures match Desalojado(old(Vista()), soc)
              case None => r.None?
              case Some((s, c, p)) => r == Some((c, p)) && Vista() == s
    {
      var k := Primera(cpus, PorSocCpu(soc));
      if k == |cpus| {
        return None;
      }
      var c := cpus[k];
      cpus := SinCpu(cpus, k);
      var p := GetPcbOtrosExec(c.idExec);
      r := if p.None? then None else Some((c, p.value));
    }

    /** `recv_actualizar_pcb` */
    method RecvActualizarPcb(stream: array<byte>, p: Pcb) returns (q: Pcb)
      requires Readable(ClaseQuantum, stream[..])
      ensures q == Actualizado(p, Deserialized(ClaseQuantum, stream[..]).pcb)
    {
      var men := Deserializar(ClaseQuantum, stream);
      q := p.(cantVar := men.pcb.cantVar);
      q := q.(dirCont := men.pcb.dirCont);
      q := q.(pc := men.pcb.pc);
    }

    /** `actualizar_pcb_y_bloq`; the block comes in `stream`. None when the kernel dies. */
    method ActualizarPcbYBloq(soc: int, stream: array<byte>, cierra: bool) returns (id: Option<int>)
      requires Readable(ClaseQuantum, stream[..])
      modifies this`cpus, this`exec, this`block, this`cantLibres
      ensures match Bloqueado(old(Vista()), soc, Deserialized(ClaseQuantum, stream[..]).pcb, cierra)
              case None => id.None?
              case Some((s, i)) => id == Some(i) && Vista() == s
    {
      hide Desalojado, Deserialized, Readable;
      var r := Desalojar(soc);
      if r.None? {
        return None;
      }
      var (c, p) := r.value;
      var pcb := RecvActualizarPcb(stream, p.pcb);
      if !cierra {
        LiberarCpu(c);
      }
      block := block + [p.(pcb := pcb)];
      id := Some(pcb.id);
    }

    // ---- Handlers of the CPU side; `muere` when the kernel follows a null pointer ----

    method IngresarNewCpu(soc: int)
      requires Posible(Vista(), CpuNueva(soc))
      modifies this`cpus, this`cantLibres
      ensures Some(Vista()) == Paso(old(Vista()), CpuNueva(soc))
    {
      cpus := cpus + [Cpu(soc, 0, 0)];
      cantLibres := cantLibres + 1;
    }

    /** The wait on the counter of free CPUs may block; a step is possible only when it does not. */
    method ConecCerradaCpu(soc: int) returns (muere: bool)
      requires Posible(Vista(), CpuCae(soc))
      modifies this`cpus, this`exec, this`listos, this`cantReady, this`cantLibres
      ensures muere == CpuCaida(old(Vista()), soc).None?
      ensures !muere ==> Some(Vista()) == CpuCaida(old(Vista()), soc)
    {
      hide SinCpu, Desalojado;
      var k := Primera(cpus, PorSocCpu(soc));
      if cpus[k].idExec != 0 {
        var r := Desalojar(soc);
        if r.None? {
          return true;
        }
        PasarPcbReady(r.value.1);
      } else {
        cpus := SinCpu(cpus, k);
        cantLibres := cantLibres - 1;
      }
      muere := false;
    }

    method FinDeQuantum(soc: int, stream: array<byte>, cierra: bool) returns (muere: bool)
      requires Readable(ClaseQuantum, stream[..])
      modifies this`cpus, this`exec, this`listos, this`cantReady, this`cantLibres
      ensures muere == QuantumTerminado(old(Vista()), soc, Deserialized(ClaseQuantum, stream[..]).pcb, cierra).None?
      ensures !muere ==>
        Some(Vista()) == QuantumTerminado(old(Vista()), soc, Deserialized(ClaseQuantum, stream[..]).pcb, cierra)
    {
      hide Desalojado, Deserialized, Readable;
      var r := Desalojar(soc);
      if r.None? {
        return true;
      }
      var (c, p) := r.value;
      if cierra {
        PasarPcbReady(p);
      } else {
        var pcb := RecvActualizarPcb(stream, p.pcb);
        PasarPcbReady(p.(pcb := pcb));
        LiberarCpu(c);
      }
      muere := false;
    }

    /** `fin_ejecucion` and `llamada_erronea`, which differ in what they log and send. */
    method TerminarProceso(soc: int, tipo: int) returns (muere: bool)
      modifies this`cpus, this`exec, this`exit, this`cantExit, this`cantMultiprog, this`cantLibres
      ensures muere == Terminado(old(Vista()), soc, tipo).None?
      ensures !muere ==> Some(Vista()) == Terminado(old(Vista()), soc, tipo)
    {
      hide Desalojado;
      var r := Desalojar(soc);
      if r.None? {
        return true;
      }
      var (c, p) := r.value;
      PasarPcbExit(Some(p.(tipoFin := tipo)));
      LiberarCpu(c);
      muere := false;
    }

    method EsperarSemaforo(soc: int, k: nat, stream: array<byte>, cierra: bool) returns (muere: bool)
      requires Readable(ClaseQuantum, stream[..])
      modifies this
      ensures muere == Esperado(old(Vista()), soc, k, Deserialized(ClaseQuantum, stream[..]).pcb, cierra).None?
      ensures !muere ==>
        Some(Vista()) == Esperado(old(Vista()), soc, k, Deserialized(ClaseQuantum, stream[..]).pcb, cierra)
    {
      hide Bloqueado, Terminado, Deserialized, Readable;
      if k >= |sems| {
        muere := TerminarProceso(soc, SEM_INEX);
        return;
      }
      muere := false;
      var x := sems[k];
      if x.valor > 0 {
        sems := sems[k := x.(valor := x.valor - 1)];
      } else {
        var id := ActualizarPcbYBloq(soc, stream, cierra);
        if id.None? {
          return true;
        }
        sems := sems[k := Semaforo(x.valor - 1, x.procesos + [id.value])];
      }
    }

    method Senalar(soc: int, k: nat) returns (muere: bool)
      modifies this
      ensures muere == Senalado(old(Vista()), soc, k).None?
      ensures !muere ==> Some(Vista()) == Senalado(old(Vista()), soc, k)
    {
      hide Terminado, Desbloqueado;
      if k >= |sems| {
        muere := TerminarProceso(soc, SEM_INEX);
        return;
      }
      muere := false;
      var x := sems[k];
      sems := sems[k := x.(valor := x.valor + 1)];
      if |x.procesos| > 0 {
        sems := sems[k := Semaforo(x.valor + 1, x.procesos[1..])];
        assert sems == old(sems)[k := Semaforo(x.valor + 1, x.procesos[1..])];
        PasarPcbBlockReady(x.procesos[0]);
      }
    }

    method EnviarAIO(soc: int, d: nat, stream: array<byte>, cierra: bool) returns (muere: bool)
      requires Readable(ClaseQuantum, stream[..])
      modifies this
      ensures muere == Enviado(old(Vista()), soc, d, Deserialized(ClaseQuantum, stream[..]).pcb, cierra).None?
      ensures !muere ==>
        Some(Vista()) == Enviado(old(Vista()), soc, d, Deserialized(ClaseQuantum, stream[..]).pcb, cierra)
    {
      hide Bloqueado, Deserialized, Readable;
      var c := Primera(cpus, PorSocCpu(soc));
      if c == |cpus| || d >= |disps| {
        return true;
      }
      var x := disps[d];
      var idProg := cpus[c].idExec;
      var id := ActualizarPcbYBloq(soc, stream, cierra);
      if id.None? {
        return true;
      }
      disps := disps[d := x.(procesos := x.procesos + [idProg], cont := x.cont + 1)];
      muere := false;
    }

    // ---- Manager threads ----

    /** The body of `manejador_new_ready` behind its two waits. */
    method NewReady()
      modifies this`nuevos, this`listos, this`cantReady, this`newReady, this`errores
      ensures Vista() == NuevoPasado(old(Vista()))
    {
      hide MasLiviano, AListos, Order.Elegido, SegmentTable.Duenos;
      newReady := Esperando;
      var p := GetPesoMin();
      PasarOReportar(p);
    }

    method PasarOReportar(p: Option<Proceso>)
      modifies this`listos, this`cantReady, this`errores
      ensures p.Some? ==> Vista() == AListos(old(Vista()), p.value)
      ensures p.None? ==> Vista() == old(Vista()).(errores := old(errores) + 1)
    {
      if p.None? {
        errores := errores + 1;
      } else {
        PasarPcbReady(p.value);
      }
    }

    /** The body of `manejador_ready_exec` behind its two waits. */
    method ReadyExec() returns (muere: bool)
      modifies this`listos, this`exec, this`cpus, this`readyExec, this`errores
      ensures muere == Scheduler.Despachado(old(Vista())).None?
      ensures !muere ==> Some(Vista()) == Scheduler.Despachado(old(Vista()))
    {
      hide SinCpu;
      muere := false;
      var k := Primera(cpus, Libre);
      if |listos| == 0 {
        readyExec := Esperando;
        errores := errores + 1;
        if k < |cpus| {
          cpus := SinCpu(cpus, k);
        }
        return;
      }
      if k == |cpus| {
        return true;
      }
      DespacharA(k);
    }

    method DespacharA(k: nat)
      requires k < |cpus| && |listos| > 0
      modifies this`listos, this`exec, this`cpus, this`readyExec
      ensures readyExec == Esperando && listos == old(listos)[1..] && exec == old(exec) + [old(listos)[0]]
      ensures cpus == SinCpu(old(cpus), k) + [Cpu(old(cpus)[k].socCpu, old(listos)[0].socket, old(listos)[0].pcb.id)]
    {
      var c, p := cpus[k], listos[0];
      cpus := SinCpu(cpus, k);
      listos := listos[1..];
      cpus := cpus + [Cpu(c.socCpu, p.socket, p.pcb.id)];
      exec := exec + [p];
      readyExec := Esperando;
    }

    /** `aviso` is what the program is told: its connection and the reason, if there is one. */
    method AtenderExit() returns (aviso: Option<(int, int)>)
      requires saliendo && umv.Valid() && forall p :: p in exit ==> p.pcb.id != 0
      modifies this`exit, this`saliendo, this`errores, umv`segs
      ensures umv.Valid() && Some(Vista()) == Paso(old(Vista()), Destruye)
      ensures aviso == if old(exit) == [] || old(exit)[0].tipoFin == SIN_FIN then None
                       else Some((old(exit)[0].socket, old(exit)[0].tipoFin))
    {
      hide SegmentTable.SinProceso, SegmentTable.Contenido, SegmentTable.Valid, SegmentTable.Duenos;
      saliendo := false;
      if |exit| == 0 {
        errores := errores + 1;
        return None;
      }
      var p := exit[0];
      aviso := if p.tipoFin != -1 then Some((p.socket, p.tipoFin)) else None;
      var id := p.pcb.id;
      exit := exit[1..];
      ghost var was := umv.segs;
      umv.DestruirSegmentos(id);
      forall y
        ensures SegmentTable.Duenos(umv.segs)[y] == if y == id then 0 else SegmentTable.Duenos(was)[y]
      {
        SegmentTable.SinProcesoDuenos(was, id, y);
      }
      assert SegmentTable.Duenos(umv.segs) == SegmentTable.Duenos(was)[id := 0];
    }

    method TomarIO(d: nat)
      requires Posible(Vista(), IoToma(d)) && IoTomado(Vista(), d).Some?
      modifies this`disps
      ensures Some(Vista()) == Paso(old(Vista()), IoToma(d))
    {
      var x := disps[d];
      disps := disps[d := Dispositivo(x.procesos[1..], x.cont - 1, Some(x.procesos[0]))];
    }

    method TerminarIO(d: nat)
      requires Posible(Vista(), IoTermina(d))
      modifies this`disps, this`block, this`listos, this`cantReady, this`errores
      ensures Some(Vista()) == Paso(old(Vista()), IoTermina(d))
    {
      hide Desbloqueado, SegmentTable.Duenos, Paso, Posible;
      IoTerminado(Vista(), d);
      var id := disps[d].sirviendo.value;
      disps := disps[d := disps[d].(sirviendo := None)];
      PasarPcbBlockReady(id);
    }

    // ---- Waits on the counting semaphores ----

    method TomarNuevo()
      requires Posible(Vista(), TomaNuevo)
      modifies this`cantNew, this`newReady
      ensures Some(Vista()) == Paso(old(Vista()), TomaNuevo)
    {
      cantNew := cantNew - 1;
      newReady := ConUno;
    }

    method TomarCupo()
      requires Posible(Vista(), TomaCupo)
      modifies this`cantMultiprog, this`newReady
      ensures Some(Vista()) == Paso(old(Vista()), TomaCupo)
    {
      cantMultiprog := cantMultiprog - 1;
      newReady := ConDos;
    }

    method TomarListo()
      requires Posible(Vista(), TomaListo)
      modifies this`cantReady, this`readyExec
      ensures Some(Vista()) == Paso(old(Vista()), TomaListo)
    {
      cantReady := cantReady - 1;
      readyExec := ConUno;
    }

    method TomarCpu()
      requires Posible(Vista(), TomaCpu)
      modifies this`cantLibres, this`readyExec
      ensures Some(Vista()) == Paso(old(Vista()), TomaCpu)
    {
      cantLibres := cantLibres - 1;
      readyExec := ConDos;
    }

    method TomarSalida()
      requires Posible(Vista(), TomaSalida)
      modifies this`cantExit, this`saliendo
      ensures Some(Vista()) == Paso(old(Vista()), TomaSalida)
    {
      cantExit := cantExit - 1;
      saliendo := true;
    }

    // ---- Whole handlers keep the invariant ----

    /** The block a CPU hands back, if the event brings one. */
    ghost predicate Trae(e: Evento, stream: array<byte>)
      reads stream
    {
      && (e.FinQuantum? || e.Wait? || e.EnviarIO? ==> Readable(ClaseQuantum, stream[..]))
      && (e.FinQuantum? || e.Wait? || e.EnviarIO? ==> e.men == Deserialized(ClaseQuantum, stream[..]).pcb)
    }

    /** `administrar_men_cpus`: from a state of the invariant the kernel dies of a report if and only if it comes
        from a CPU that runs nothing, when the handler looks for its process, or names a device that is not
        configured; otherwise the invariant holds again. */
    method AdministrarMenCpu(e: Evento, stream: array<byte>) returns (muere: bool)
      requires e.CpuCae? || e.FinQuantum? || e.FinEjecucion? || e.VariableInexistente? || e.Wait? || e.Signal? || e.EnviarIO?
      requires Inv(Vista()) && Posible(Vista(), e) && Trae(e, stream)
      modifies this
      ensures muere <==> !Sano(old(Vista()), e)
      ensures !muere ==> Some(Vista()) == Paso(old(Vista()), e) && Inv(Vista())
      ensures !muere ==> Order.Efecto(old(Vista()), e, Vista())
    {
      hide Inv, CpuCaida, QuantumTerminado, Terminado, Esperado, Senalado, Enviado, Deserialized, Readable, Sano, Order.Efecto;
      StepKeeps(Vista(), e);
      if Sano(Vista(), e) {
        Order.StepEffect(Vista(), e);
      }
      match e {
        case CpuCae(soc) => muere := ConecCerradaCpu(soc);
        case FinQuantum(soc, _, cierra) => muere := FinDeQuantum(soc, stream, cierra);
        case FinEjecucion(soc, tipo) => muere := TerminarProceso(soc, tipo);
        case VariableInexistente(soc) => muere := TerminarProceso(soc, VAR_INEX);
        case Wait(soc, k, _, cierra) => muere := EsperarSemaforo(soc, k, stream, cierra);
        case Signal(soc, k) => muere := Senalar(soc, k);
        case EnviarIO(soc, d, _, cierra) => muere := EnviarAIO(soc, d, stream, cierra);
      }
    }

    /** An iteration of `manejador_new_ready`, from the first wait to the move. */
    method IteracionNewReady()
      requires Inv(Vista()) && newReady == Esperando && cantNew > 0 && cantMultiprog > 0
      modifies this`nuevos, this`listos, this`cantNew, this`cantReady, this`cantMultiprog, this`newReady, this`errores
      ensures Inv(Vista()) && newReady == Esperando && |listos| == old(|listos|) + 1 && |nuevos| == old(|nuevos|) - 1
      ensures exists i: nat :: Order.MasLigero(old(nuevos), i) && listos == old(listos) + [old(nuevos)[i]]
                               && nuevos == old(nuevos)[i + 1..] + old(nuevos)[..i]
    {
      hide Inv, NuevoPasado, Order.MasLigero;
      StepKeeps(Vista(), TomaNuevo);
      TomarNuevo();
      StepKeeps(Vista(), TomaCupo);
      TomarCupo();
      StepKeeps(Vista(), NuevoAListo);
      Order.SomeoneIsNew(Vista());
      ghost var i := Order.LightestEffect(Vista());
      NoErrors(Vista());
      NewReady();
      NoErrors(Vista());
    }

    /** An iteration of `manejador_ready_exec`: it always finds a CPU and a process. */
    method IteracionReadyExec()
      requires Inv(Vista()) && readyExec == Esperando && cantReady > 0 && cantLibres > 0
      modifies this`listos, this`exec, this`cpus, this`cantReady, this`cantLibres, this`readyExec, this`errores
      ensures Inv(Vista()) && readyExec == Esperando
      ensures old(|listos|) > 0 && listos == old(listos)[1..] && exec == old(exec) + [old(listos)[0]]
      ensures exists c: nat :: c < |old(cpus)| && old(cpus)[c].idExec == 0
                && (forall j :: 0 <= j < c ==> old(cpus)[j].idExec != 0)
                && cpus == Order.Salvo(old(cpus), c) + [Cpu(old(cpus)[c].socCpu, old(listos)[0].socket, old(listos)[0].pcb.id)]
    {
      hide Inv, Despachado;
      StepKeeps(Vista(), TomaListo);
      TomarListo();
      StepKeeps(Vista(), TomaCpu);
      TomarCpu();
      StepKeeps(Vista(), Despacha);
      ghost var c := Order.DispatchEffect(Vista());
      NoErrors(Vista());
      var muere := ReadyExec();
      NoErrors(Vista());
    }

    /** An iteration of `manejador_exit`: the process leaves the kernel and the memory server. */
    method IteracionExit() returns (aviso: Option<(int, int)>)
      requires Inv(Vista()) && umv.Valid() && !saliendo && cantExit > 0
      modifies this`exit, this`cantExit, this`saliendo, this`errores, umv`segs
      ensures Inv(Vista()) && umv.Valid() && !saliendo
      ensures old(|exit|) > 0 && exit == old(exit)[1..] && old(exit)[0].pcb.id !in SegmentTable.Duenos(umv.segs)
      ensures aviso == if old(exit)[0].tipoFin == SIN_FIN then None else Some((old(exit)[0].socket, old(exit)[0].tipoFin))
    {
      hide Inv, SegmentTable.Valid, SegmentTable.Duenos;
      StepKeeps(Vista(), TomaSalida);
      TomarSalida();
      ExitIds(Vista());
      StepKeeps(Vista(), Destruye);
      NoErrors(Vista());
      aviso := AtenderExit();
      NoErrors(Vista());
    }

    // ---- The program side and the console ----

    method SacarNuevo(soc: int)
      modifies this`nuevos, this`exit, this`cantExit, this`cantMultiprog
      ensures Vista() == SinNuevo(old(Vista()), soc)
    {
      hide Salido, ASalidaSi;
      var p;
      nuevos, p := BuscarPcb(nuevos, soc);
      PasarPcbExit(p);
    }

    method SacarListo(soc: int)
      modifies this`listos, this`exit, this`cantExit, this`cantMultiprog
      ensures Vista() == SinListo(old(Vista()), soc)
    {
      hide Salido, ASalidaSi;
      var p;
      listos, p := BuscarPcb(listos, soc);
      PasarPcbExit(p);
    }

    method SacarBloqueado(soc: int)
      modifies this`block, this`exit, this`cantExit, this`cantMultiprog
      ensures Vista() == SinBloqueado(old(Vista()), soc)
    {
      hide Salido, ASalidaSi;
      var p;
      block, p := BuscarPcb(block, soc);
      PasarPcbExit(p);
    }

    method SacarExec(soc: int)
      modifies this`exec, this`exit, this`cantExit, this`cantMultiprog
      ensures Vista() == SinEjecutar(old(Vista()), soc)
    {
      hide Salido, ASalidaSi;
      var p;
      exec, p := BuscarPcb(exec, soc);
      PasarPcbExit(p);
    }

    /** `mover_pcb_exit` */
    method MoverPcbExit(soc: int)
      modifies this`nuevos, this`listos, this`block, this`exec, this`exit, this`cantExit, this`cantMultiprog
      ensures Vista() == PcbMovido(old(Vista()), soc)
    {
      hide SinNuevo, SinListo, SinBloqueado, SinEjecutar, Vista;
      SacarNuevo(soc);
      SacarListo(soc);
      SacarBloqueado(soc);
      SacarExec(soc);
    }

    /** `administrar_prog_cerrado` */
    method CerrarPrograma(soc: int)
      modifies this`nuevos, this`listos, this`block, this`exec, this`exit, this`cantExit, this`cantMultiprog, this`cpus
      ensures Vista() == ProgCerrado(old(Vista()), soc)
    {
      hide PcbMovido;
      MoverPcbExit(soc);
      var k := Primera(cpus, PorProg(soc));
      if k < |cpus| {
        cpus := SinCpu(cpus, k);
      }
    }

    /** `solicitar_mem`: four requests, given up at the first one refused. It succeeds exactly when the four
        sizes together are at most the free bytes; otherwise the process owns nothing. If each request finds a
        quiet table, no other process loses a byte. */
    method SolicitarMem(p: Programa, tamStack: nat, d: Direcciones, basura: nat -> SegmentTable.Residuo) returns (ok: bool)
      requires umv.Valid() && contador != 0 && contador !in SegmentTable.Duenos(umv.segs) && Distintas(d)
      modifies umv`segs, umv.mem
      ensures umv.Valid()
      ensures Atiende(umv.Modo(), old(umv.Vista()), contador, Pedidos(p, tamStack, d), umv.Vista(), ok)
      ensures ok <==> Demanda(p, tamStack) <= old(umv.Libre())
      ensures ok ==> umv.Libre() == old(umv.Libre()) - Demanda(p, tamStack)
      ensures ok ==> SegmentTable.Fichas(umv.segs, contador) == Cuatro(p, tamStack, d)
      ensures SegmentTable.Duenos(umv.segs) == old(SegmentTable.Duenos(umv.segs))[contador := if ok then 4 else 0]
      ensures CadenaQuieta(umv.Modo(), old(umv.segs), contador, Pedidos(p, tamStack, d), Ajenas(old(umv.segs), contador)) ==>
        Conserva(old(umv.Store()), umv.Store(), Ajenas(old(umv.segs), contador))
    {
      ghost var t := umv.Vista();
      umv.VistaBien();
      ok := PedirCuatro(p, tamStack, d, basura);
      hide SegmentTable.Fichas, SegmentTable.Duenos, SegmentTable.Suma, SegmentTable.Valid, Atiende, Conserva, Cuatro, Bien;
      hide Pedidos, CadenaQuieta, Demanda, Distintas;
      AdmissionRequests(umv.Modo(), t, contador, p, tamStack, d, umv.Vista(), ok);
    }

    /** The four calls, one after the other. */
    method PedirCuatro(p: Programa, tamStack: nat, d: Direcciones, basura: nat -> SegmentTable.Residuo) returns (ok: bool)
      requires umv.Valid() && contador != 0 && contador !in SegmentTable.Duenos(umv.segs) && Distintas(d)
      modifies umv`segs, umv.mem
      ensures umv.Valid()
      ensures Atiende(umv.Modo(), old(umv.Vista()), contador, Pedidos(p, tamStack, d), umv.Vista(), ok)
      ensures ok ==> SegmentTable.Fichas(umv.segs, contador) == Cuatro(p, tamStack, d)
    {
      hide SegmentTable.Suma, SegmentTable.Valid, SegmentTable.Duenos, SegmentTable.Claves, SegmentTable.Fichas;
      hide SegmentTable.Contenido, Responde, Atiende, Quieto, Conserva;
      SegmentTable.OwnsNothing(umv.segs, contador);
      hide Encadena, Cuatro, TipoSeg;
      LasCuatro(p, tamStack, d);
      ghost var m, ps, ts := umv.Modo(), Pedidos(p, tamStack, d), [umv.Vista()];
      FirstLink(m, umv.Vista(), contador, ps);
      var resp := umv.GestionarPedSeg(PED_MEM_SEG_COD, contador, |p.codigo|, d.codigo, basura(0));
      OneLink(m, ts, contador, ps, basura(0), umv.Vista());
      ts := ts + [umv.Vista()];
      if resp == -1 {
        ChainRuns(m, ts, contador, ps, false);
        return false;
      }
      resp := umv.GestionarPedSeg(PED_MEM_IND_ETI, contador, |p.etiquetas|, d.etiquetas, basura(1));
      OneLink(m, ts, contador, ps, basura(1), umv.Vista());
      ts := ts + [umv.Vista()];
      if resp == -1 {
        ChainRuns(m, ts, contador, ps, false);
        return false;
      }
      resp := umv.GestionarPedSeg(PED_MEM_IND_COD, contador, |p.indice|, d.indice, basura(2));
      OneLink(m, ts, contador, ps, basura(2), umv.Vista());
      ts := ts + [umv.Vista()];
      if resp == -1 {
        ChainRuns(m, ts, contador, ps, false);
        return false;
      }
      resp := umv.GestionarPedSeg(PED_MEM_SEG_STACK, contador, tamStack, d.stack, basura(3));
      OneLink(m, ts, contador, ps, basura(3), umv.Vista());
      ts := ts + [umv.Vista()];
      ok := resp != -1;
      ChainRuns(m, ts, contador, ps, ok);
    }

    /** The three writes of `crear_pcb_escribir_seg_UMV`: each finds its segment by type, and what was
        written is what a read by logical address returns. */
    method EscribirSegmentos(p: Programa, tamStack: nat, d: Direcciones)
      requires umv.Valid() && SegmentTable.Fichas(umv.segs, contador) == Cuatro(p, tamStack, d) && Distintas(d)
      modifies umv.mem
      ensures umv.Valid()
      ensures umv.Store() == old(umv.Store())[(contador, d.codigo) := p.codigo]
                             [(contador, d.etiquetas) := p.etiquetas][(contador, d.indice) := p.indice]
      ensures Lee(contador, d.codigo, p.codigo) && Lee(contador, d.etiquetas, p.etiquetas) && Lee(contador, d.indice, p.indice)
    {
      hide SegmentTable.Contenido, SegmentTable.Valid, SegmentTable.Fichas;
      SegmentTable.OneOfItsType(umv.segs, contador, (CODIGO_SCRIPT, d.codigo, |p.codigo|));
      SegmentTable.OneOfItsType(umv.segs, contador, (IND_ETI_FUNC, d.etiquetas, |p.etiquetas|));
      SegmentTable.OneOfItsType(umv.segs, contador, (IND_COD, d.indice, |p.indice|));
      ghost var destino := umv.AlmacenarSegmento(contador, CODIGO_SCRIPT, p.codigo);
      destino := umv.AlmacenarSegmento(contador, IND_ETI_FUNC, p.etiquetas);
      destino := umv.AlmacenarSegmento(contador, IND_COD, p.indice);
    }

    /** `administrar_new_script`. `sobra` is the field of the block that nobody initialises; `v` is the server between
        the requests and the writes. If each request finds a quiet table, no other process loses a byte. */
    method AdministrarNewScript(soc: int, p: Programa, tamStack: nat, d: Direcciones,
                                basura: nat -> SegmentTable.Residuo, sobra: int) returns (ghost v: Tabla)
      requires umv.Valid() && contador + 1 !in SegmentTable.Duenos(umv.segs) && Distintas(d)
      modifies this`contador, this`nuevos, this`cantNew, umv`segs, umv.mem
      ensures umv.Valid()
      ensures var ok := Demanda(p, tamStack) <= old(umv.Libre());
              && Vista() == Admitido(old(Vista()), soc, p.peso, if ok then Some(PcbInicial(p, d, contador, sobra)) else None)
              && Atiende(umv.Modo(), old(umv.Vista()), contador, Pedidos(p, tamStack, d), v, ok)
              && umv.Vista() == (if ok then Escrita(v, contador, p, d) else v) && EscribePropias(v, umv.Vista(), contador)
      ensures old(Inv(Vista())) && p.peso <= PESO_TOPE ==> Inv(Vista())
      ensures CadenaQuieta(umv.Modo(), old(umv.segs), contador, Pedidos(p, tamStack, d), Ajenas(old(umv.segs), contador)) ==>
        Conserva(old(umv.Store()), umv.Store(), Ajenas(old(umv.segs), contador))
      ensures Demanda(p, tamStack) <= old(umv.Libre()) ==>
        Lee(contador, d.codigo, p.codigo) && Lee(contador, d.etiquetas, p.etiquetas)
        && Lee(contador, d.indice, p.indice) && Ocupa(contador, d.stack, tamStack)
      ensures Demanda(p, tamStack) <= old(umv.Libre()) ==>
        nuevos != [] && var q := nuevos[|nuevos| - 1]; q.socket == soc && q.peso == p.peso && Arranca(q.pcb, p, tamStack)
    {
      hide SegmentTable.Valid, SegmentTable.Duenos, SegmentTable.Contenido;
      hide Lee, Ocupa, Arranca, Inv, PcbInicial, Pedidos, Atiende, CadenaQuieta, Conserva, Ajenas, EscribePropias, Escrita, Bien;
      PcbNuevo(p, d, contador + 1, sobra);
      ghost var s := Vista();
      contador := contador + 1;
      var ok;
      ok, v := CrearSegmentos(p, tamStack, d, basura);
      ghost var resp := if ok then Some(PcbInicial(p, d, contador, sobra)) else None;
      if ok {
        PonerEnNew(Proceso(PcbInicial(p, d, contador, sobra), soc, p.peso, SIN_FIN));
        BlockFindsSegments(p, tamStack, d, sobra);
      }
      assert Vista() == Admitido(s, soc, p.peso, resp);
      if Inv(s) && p.peso <= PESO_TOPE {
        AdmitirKeeps(s, soc, p.peso, resp);
      }
    }

    /** The memory server's side of an admission. */
    method CrearSegmentos(p: Programa, tamStack: nat, d: Direcciones, basura: nat -> SegmentTable.Residuo)
      returns (ok: bool, ghost v: Tabla)
      requires umv.Valid() && contador != 0 && contador !in SegmentTable.Duenos(umv.segs) && Distintas(d)
      modifies umv`segs, umv.mem
      ensures umv.Valid() && (ok <==> Demanda(p, tamStack) <= old(umv.Libre()))
      ensures SegmentTable.Duenos(umv.segs) == old(SegmentTable.Duenos(umv.segs))[contador := if ok then 4 else 0]
      ensures Atiende(umv.Modo(), old(umv.Vista()), contador, Pedidos(p, tamStack, d), v, ok)
      ensures umv.Vista() == (if ok then Escrita(v, contador, p, d) else v) && EscribePropias(v, umv.Vista(), contador)
      ensures CadenaQuieta(umv.Modo(), old(umv.segs), contador, Pedidos(p, tamStack, d), Ajenas(old(umv.segs), contador)) ==>
        Conserva(old(umv.Store()), umv.Store(), Ajenas(old(umv.segs), contador))
      ensures ok ==> Lee(contador, d.codigo, p.codigo) && Lee(contador, d.etiquetas, p.etiquetas)
                     && Lee(contador, d.indice, p.indice) && Ocupa(contador, d.stack, tamStack)
    {
      hide SegmentTable.Valid, SegmentTable.Duenos, SegmentTable.Fichas, SegmentTable.Contenido, SegmentTable.Claves;
      hide Cuatro, Lee, Ocupa, Atiende, CadenaQuieta, Conserva, Ajenas, EscribePropias, Bien, Pedidos, Demanda, Distintas;
      ghost var t := umv.Vista();
      umv.VistaBien();
      ok := SolicitarMem(p, tamStack, d, basura);
      v := umv.Vista();
      if ok {
        EscribirSegmentos(p, tamStack, d);
        StackConcedido(p, tamStack, d);
        WritesAreOwn(umv.Modo(), t, v, contador, p, tamStack, d);
      } else {
        NothingWritten(v, contador);
      }
    }

    method PonerEnNew(p: Proceso)
      modifies this`nuevos, this`cantNew
      ensures Vista() == old(Vista()).(nuevos := old(nuevos) + [p], cantNew := old(cantNew) + 1)
    {
      nuevos := nuevos + [p];
      cantNew := cantNew + 1;
    }

    /** Whether a read of the segment by logical address returns `dato`. */
    ghost predicate Lee(id: int, dir: int, dato: seq<byte>)
      reads umv, umv.mem
      requires umv.Valid()
    {
      (id, dir) in umv.Store() && umv.Store()[(id, dir)] == dato
    }

    /** Whether the segment exists with that many bytes. */
    ghost predicate Ocupa(id: int, dir: int, tam: nat)
      reads umv, umv.mem
      requires umv.Valid()
    {
      (id, dir) in umv.Store() && |umv.Store()[(id, dir)]| == tam
    }

    /** The control block leads the CPU to the segments of its program: through each address it holds, a read returns
        what belongs there, and it starts with an empty stack at the first instruction. */
    ghost predicate Arranca(q: Pcb, p: Programa, tamStack: nat)
      reads umv, umv.mem
      requires umv.Valid()
    {
      && Lee(q.id, q.dirSegCodigo, p.codigo) && Lee(q.id, q.dirIndiceCodigo, p.indice)
      && Lee(q.id, q.dirIndiceEtiquetas, p.etiquetas) && q.tamIndiceEtiquetas == |p.etiquetas|
      && Ocupa(q.id, q.dirSegStack, tamStack) && q.dirCont == q.dirSegStack && q.cantVar == 0 && q.pc == p.inicio
    }

    lemma BlockFindsSegments(p: Programa, tamStack: nat, d: Direcciones, sobra: int)
      requires umv.Valid() && Lee(contador, d.codigo, p.codigo) && Lee(contador, d.etiquetas, p.etiquetas)
      requires Lee(contador, d.indice, p.indice) && Ocupa(contador, d.stack, tamStack)
      ensures PcbInicial(p, d, contador, sobra).id == contador && Arranca(PcbInicial(p, d, contador, sobra), p, tamStack)
    {
      hide Lee, Ocupa;
    }

    lemma StackConcedido(p: Programa, tamStack: nat, d: Direcciones)
      requires umv.Valid() && SegmentTable.Fichas(umv.segs, contador) == Cuatro(p, tamStack, d)
      ensures Ocupa(contador, d.stack, tamStack)
    {
      SegmentTable.OneOfItsType(umv.segs, contador, (IND_STACK, d.stack, tamStack));
      var x :| x in umv.segs && x.tipo == IND_STACK && x.idProc == contador;
      SegmentTable.ContenidoAt(umv.segs, umv.mem[..], x);
    }

    method CambiarGrado(n: int)
      modifies this`cantMultiprog
      ensures Vista() == MultiprogCambiado(old(Vista()), n)
    {
      var cantProgs := |listos| + |block| + |exec|;
      var valorSem := cantMultiprog;
      var dif := n - (cantProgs + valorSem);
      if dif > 0 {
        for i := 0 to dif
          invariant cantMultiprog == valorSem + i
        {
          cantMultiprog := cantMultiprog + 1;
        }
      } else if -dif <= valorSem {
        for i := 0 to -dif
          invariant cantMultiprog == valorSem - i
        {
          cantMultiprog := cantMultiprog - 1;
        }
      }
    }
  }
}
