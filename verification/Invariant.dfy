/** What every reachable state of the kernel satisfies. */
module Invariant {
  import opened Bytes
  import opened Wire
  import opened Scheduler

  // ---- Sums over queues and lists ----

  /** The sum of what each entry contributes. */
  function Junta<T, U>(q: seq<T>, f: T -> multiset<U>): multiset<U> {
    if q == [] then multiset{} else Junta(q[..|q| - 1], f) + f(q[|q| - 1])
  }

  lemma JuntaMas<T, U>(q: seq<T>, x: T, f: T -> multiset<U>)
    ensures Junta(q + [x], f) == Junta(q, f) + f(x)
  {
    assert (q + [x])[..|q|] == q;
  }

  lemma {:induction false} JuntaConcat<T, U>(a: seq<T>, b: seq<T>, f: T -> multiset<U>)
    ensures Junta(a + b, f) == Junta(a, f) + Junta(b, f)
    decreases |b|
  {
    if b == [] {
      assert a + b == a;
    } else {
      var n := |b| - 1;
      JuntaConcat(a, b[..n], f);
      assert a + b == (a + b[..n]) + [b[n]];
      JuntaMas(a + b[..n], b[n], f);
    }
  }

  /** An entry taken out of a queue by rotation, or out of a list in place. */
  lemma JuntaQuita<T, U>(q: seq<T>, i: nat, f: T -> multiset<U>)
    requires i < |q|
    ensures Junta(q, f) == Junta(q[i + 1..] + q[..i], f) + f(q[i])
    ensures Junta(q, f) == Junta(q[..i] + q[i + 1..], f) + f(q[i])
  {
    hide Junta;
    var a, b := q[..i], q[i + 1..];
    JuntaConcat(b, a, f);
    JuntaConcat(a, b, f);
    JuntaMas(a, q[i], f);
    JuntaConcat(a + [q[i]], b, f);
    assert q == a + [q[i]] + b;
  }

  lemma JuntaCambia<T, U>(q: seq<T>, i: nat, x: T, f: T -> multiset<U>)
    requires i < |q|
    ensures Junta(q[i := x], f) + f(q[i]) == Junta(q, f) + f(x)
  {
    hide Junta;
    var r := q[i := x];
    JuntaQuita(q, i, f);
    JuntaQuita(r, i, f);
    assert r[..i] == q[..i] && r[i + 1..] == q[i + 1..];
  }

  lemma JuntaDos<T, U>(q: seq<T>, i: nat, j: nat, f: T -> multiset<U>)
    requires i < j < |q|
    ensures f(q[i]) + f(q[j]) <= Junta(q, f)
  {
    hide Junta;
    JuntaQuita(q, j, f);
    JuntaQuita(q[..j] + q[j + 1..], i, f);
  }

  lemma {:induction false} JuntaBusca<T, U>(q: seq<T>, f: T -> multiset<U>, u: U)
    requires u in Junta(q, f)
    ensures exists i :: 0 <= i < |q| && u in f(q[i])
    decreases |q|
  {
    var n := |q| - 1;
    if u !in f(q[n]) {
      JuntaBusca(q[..n], f, u);
    }
  }

  lemma Cancela<T(!new)>(a: multiset<T>, b: multiset<T>, c: multiset<T>)
    requires a + c == b + c
    ensures a == b
  {
    forall x: T
      ensures a[x] == b[x]
    {
      assert (a + c)[x] == (b + c)[x];
    }
  }

  lemma Menos(a: multiset<int>, b: multiset<int>, x: int)
    requires a == b + multiset{x} && forall y :: a[y] <= 1
    ensures x !in b && forall y :: b[y] <= 1
  {
    assert a[x] == b[x] + 1;
    forall y
      ensures b[y] <= 1
    {
      assert a[y] <= 1;
    }
  }

  function IdDe(p: Proceso): multiset<int> { multiset{p.pcb.id} }

  function ParDe(p: Proceso): multiset<(int, int)> { multiset{(p.pcb.id, p.socket)} }

  function OcupaDe(c: Cpu): multiset<(int, int)> {
    if c.idExec != 0 then multiset{(c.idExec, c.socProg)} else multiset{}
  }

  function LibreDe(c: Cpu): multiset<int> {
    if c.idExec == 0 then multiset{c.socCpu} else multiset{}
  }

  function SocDe(c: Cpu): multiset<int> { multiset{c.socCpu} }

  function EsperaDe(x: Semaforo): multiset<int> { multiset(x.procesos) }

  function ServidoDe(x: Dispositivo): multiset<int> {
    multiset(x.procesos) + if x.sirviendo.Some? then multiset{x.sirviendo.value} else multiset{}
  }

  // ---- The invariant ----

  /** Every live process, once for each queue entry that holds it. */
  function Censo(s: Estado): multiset<int> {
    Junta(s.nuevos, IdDe) + Junta(s.listos, IdDe) + Junta(s.exec, IdDe) + Junta(s.block, IdDe) + Junta(s.exit, IdDe)
  }

  /** Each live id is in exactly one place of exactly one queue, and ids are handed out upwards from 1. */
  ghost predicate EnUnaCola(censo: multiset<int>, contador: nat) {
    && (forall id :: censo[id] <= 1)
    && (forall id :: id in censo ==> 1 <= id <= contador)
  }

  /** The exec queue and the busy CPUs are the same (process, connection) pairs; no socket has two CPUs. */
  ghost predicate CpusEnOrden(exec: seq<Proceso>, cpus: seq<Cpu>) {
    && Junta(exec, ParDe) == Junta(cpus, OcupaDe)
    && (forall soc :: Junta(cpus, SocDe)[soc] <= 1)
    && (forall c :: c in cpus && c.idExec == 0 ==> c.socProg == 0)
  }

  function Uno(b: bool): nat {
    if b then 1 else 0
  }

  /** The counting semaphores mirror the queues, up to the tokens the manager threads hold. */
  ghost predicate ContadoresExactos(s: Estado) {
    && s.cantNew + Uno(s.newReady != Esperando) == |s.nuevos|
    && s.cantReady + Uno(s.readyExec != Esperando) == |s.listos|
    && s.cantExit + Uno(s.saliendo) == |s.exit|
    && s.cantLibres + Uno(s.readyExec == ConDos) == |Junta(s.cpus, LibreDe)|
  }

  /** As many processes wait on a semaphore as its value is below zero. */
  ghost predicate Exactos(sems: seq<Semaforo>) {
    forall k :: 0 <= k < |sems| ==> |sems[k].procesos| == Max(0, -sems[k].valor)
  }

  ghost predicate Contados(disps: seq<Dispositivo>) {
    forall k :: 0 <= k < |disps| ==> disps[k].cont == |disps[k].procesos|
  }

  /** Every blocked process waits in exactly one line, and only blocked processes do. */
  ghost predicate Repartidos(sems: seq<Semaforo>, disps: seq<Dispositivo>, block: seq<Proceso>) {
    && Junta(sems, EsperaDe) + Junta(disps, ServidoDe) == Junta(block, IdDe)
    && Exactos(sems) && Contados(disps)
  }

  /** The memory server holds four segments of each live process and nothing else. */
  ghost predicate CuatroSegmentos(duenos: multiset<int>, censo: multiset<int>) {
    forall id :: duenos[id] == 4 * censo[id]
  }

  /** The invariant while a handler carries the processes `vuelo` from one queue to another. */
  ghost predicate InvCon(s: Estado, vuelo: multiset<int>) {
    && EnUnaCola(Censo(s) + vuelo, s.contador)
    && CuatroSegmentos(s.duenos, Censo(s) + vuelo)
    && CpusEnOrden(s.exec, s.cpus)
    && ContadoresExactos(s)
    && Repartidos(s.sems, s.disps, s.block)
    && (forall p :: p in s.nuevos ==> p.peso <= PESO_TOPE)
    && s.errores == 0
  }

  ghost predicate Inv(s: Estado) {
    InvCon(s, multiset{})
  }

  // ---- A CPU lets go of its process ----

  lemma UnicoId(q: seq<Proceso>, i: nat, j: nat)
    requires i < |q| && j < |q| && q[i].pcb.id == q[j].pcb.id && Junta(q, IdDe)[q[i].pcb.id] <= 1
    ensures i == j
  {
    if i < j {
      JuntaDos(q, i, j, IdDe);
    } else if j < i {
      JuntaDos(q, j, i, IdDe);
    }
  }

  /** The queue search by id finds the entry with that connection. */
  lemma EnCola(q: seq<Proceso>, id: int, soc: int)
    requires (id, soc) in Junta(q, ParDe) && Junta(q, IdDe)[id] <= 1
    ensures var i := Primero(q, PorId(id)); i < |q| && q[i].pcb.id == id && q[i].socket == soc
  {
    hide Junta;
    JuntaBusca(q, ParDe, (id, soc));
    var i :| 0 <= i < |q| && (id, soc) in ParDe(q[i]);
    UnicoId(q, i, Primero(q, PorId(id)));
  }

  /** A busy CPU runs the process the exec queue holds under its id, for the same connection. */
  lemma EnExec(s: Estado, c: nat)
    requires Inv(s) && c < |s.cpus| && s.cpus[c].idExec != 0
    ensures var i := Primero(s.exec, PorId(s.cpus[c].idExec));
            i < |s.exec| && s.exec[i].pcb.id == s.cpus[c].idExec && s.exec[i].socket == s.cpus[c].socProg
  {
    hide Junta;
    var id, soc := s.cpus[c].idExec, s.cpus[c].socProg;
    JuntaQuita(s.cpus, c, OcupaDe);
    assert (id, soc) in OcupaDe(s.cpus[c]);
    assert (Censo(s) + multiset{})[id] <= 1;
    EnCola(s.exec, id, soc);
  }

  /** Taking a busy CPU and its process out keeps everything, with the process on its way. */
  lemma Suelta(s: Estado, c: nat, i: nat)
    requires Inv(s) && c < |s.cpus| && i < |s.exec| && s.cpus[c].idExec != 0
    requires s.exec[i].pcb.id == s.cpus[c].idExec && s.exec[i].socket == s.cpus[c].socProg
    ensures var s1 := s.(cpus := SinCpu(s.cpus, c), exec := Girada(s.exec, i));
            InvCon(s1, multiset{s.exec[i].pcb.id}) && s.cpus[c].socCpu !in Junta(s1.cpus, SocDe)
  {
    hide Junta;
    JuntaQuita(s.exec, i, IdDe);
    JuntaQuita(s.exec, i, ParDe);
    JuntaQuita(s.cpus, c, OcupaDe);
    JuntaQuita(s.cpus, c, LibreDe);
    JuntaQuita(s.cpus, c, SocDe);
    var s1 := s.(cpus := SinCpu(s.cpus, c), exec := Girada(s.exec, i));
    assert Censo(s) + multiset{} == Censo(s1) + multiset{s.exec[i].pcb.id};
    Menos(Junta(s.cpus, SocDe), Junta(s1.cpus, SocDe), s.cpus[c].socCpu);
    Cancela(Junta(s1.exec, ParDe), Junta(s1.cpus, OcupaDe), ParDe(s.exec[i]));
    assert Junta(s1.cpus, LibreDe) == Junta(s.cpus, LibreDe);
  }

  lemma Desaloja(s: Estado, soc: int)
    requires Inv(s) && Ocupada(s, soc)
    ensures var r := Desalojado(s, soc);
            && r.Some?
            && var (s1, c, p) := r.value;
            InvCon(s1, multiset{p.pcb.id}) && c.socCpu !in Junta(s1.cpus, SocDe) && p.pcb.id == c.idExec
  {
    hide Inv, InvCon, Junta;
    var c := Primera(s.cpus, PorSocCpu(soc));
    EnExec(s, c);
    Suelta(s, c, Primero(s.exec, PorId(s.cpus[c].idExec)));
  }

  // ---- The process and the CPU find their next place ----

  lemma LiberaKeeps(s: Estado, c: Cpu, vuelo: multiset<int>)
    requires InvCon(s, vuelo) && c.socCpu !in Junta(s.cpus, SocDe)
    ensures InvCon(Libera(s, c), vuelo)
  {
    hide Junta;
    var d := c.(idExec := 0, socProg := 0);
    JuntaMas(s.cpus, d, OcupaDe);
    JuntaMas(s.cpus, d, LibreDe);
    JuntaMas(s.cpus, d, SocDe);
    assert Junta(s.cpus, OcupaDe) + multiset{} == Junta(s.cpus, OcupaDe);
  }

  lemma AListosKeeps(s: Estado, p: Proceso)
    requires InvCon(s, multiset{p.pcb.id})
    ensures Inv(AListos(s, p))
  {
    hide Junta;
    JuntaMas(s.listos, p, IdDe);
    assert Censo(s) + multiset{p.pcb.id} == Censo(AListos(s, p)) + multiset{};
  }

  lemma ASalidaKeeps(s: Estado, p: Proceso)
    requires InvCon(s, multiset{p.pcb.id})
    ensures Inv(ASalida(s, p))
  {
    hide Junta;
    JuntaMas(s.exit, p, IdDe);
    assert Censo(s) + multiset{p.pcb.id} == Censo(ASalida(s, p)) + multiset{};
  }

  /** A process that goes to the block queue and into one line. */
  lemma BloqueaKeeps(s: Estado, p: Proceso, sems: seq<Semaforo>, disps: seq<Dispositivo>)
    requires InvCon(s, multiset{p.pcb.id})
    requires Junta(sems, EsperaDe) + Junta(disps, ServidoDe)
          == Junta(s.sems, EsperaDe) + Junta(s.disps, ServidoDe) + multiset{p.pcb.id}
    requires Exactos(sems) && Contados(disps)
    ensures Inv(s.(block := s.block + [p], sems := sems, disps := disps))
  {
    hide Junta;
    JuntaMas(s.block, p, IdDe);
    assert Censo(s) + multiset{p.pcb.id} == Censo(s.(block := s.block + [p])) + multiset{};
  }

  /** The same from the moment a busy CPU reports that its process blocks. */
  lemma BloqueadoKeeps(s: Estado, soc: int, men: Pcb, cierra: bool, sems: seq<Semaforo>, disps: seq<Dispositivo>)
    requires Inv(s) && Ocupada(s, soc) && Exactos(sems) && Contados(disps)
    requires Junta(sems, EsperaDe) + Junta(disps, ServidoDe)
          == Junta(s.sems, EsperaDe) + Junta(s.disps, ServidoDe) + multiset{s.cpus[Primera(s.cpus, PorSocCpu(soc))].idExec}
    ensures var r := Bloqueado(s, soc, men, cierra);
            && r.Some? && r.value.1 == s.cpus[Primera(s.cpus, PorSocCpu(soc))].idExec
            && Inv(r.value.0.(sems := sems, disps := disps))
  {
    hide Junta, Inv, InvCon, Exactos, Contados;
    Desaloja(s, soc);
    var (s1, c, p) := Desalojado(s, soc).value;
    if !cierra {
      LiberaKeeps(s1, c, multiset{p.pcb.id});
    }
    var s2 := if cierra then s1 else Libera(s1, c);
    BloqueaKeeps(s2, p.(pcb := Actualizado(p.pcb, men)), sems, disps);
  }

  /** A process that leaves its line is found in the block queue and becomes ready. */
  lemma DesbloqueaKeeps(s: Estado, id: int, sems: seq<Semaforo>, disps: seq<Dispositivo>)
    requires Inv(s)
    requires Junta(s.sems, EsperaDe) + Junta(s.disps, ServidoDe)
          == Junta(sems, EsperaDe) + Junta(disps, ServidoDe) + multiset{id}
    requires Exactos(sems) && Contados(disps)
    ensures Inv(Desbloqueado(s.(sems := sems, disps := disps), id))
  {
    hide Junta;
    assert id in Junta(s.block, IdDe);
    JuntaBusca(s.block, IdDe, id);
    var i := Primero(s.block, PorId(id));
    assert i < |s.block|;
    JuntaQuita(s.block, i, IdDe);
    var s1 := s.(sems := sems, disps := disps, block := Girada(s.block, i));
    Cancela(Junta(sems, EsperaDe) + Junta(disps, ServidoDe), Junta(s1.block, IdDe), multiset{id});
    assert Censo(s) + multiset{} == Censo(s1) + multiset{id};
    AListosKeeps(s1, s.block[i]);
  }
}
