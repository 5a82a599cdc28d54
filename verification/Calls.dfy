/** Whole calls: when the segment runs out, what closes a frame, and what a call with its body and return leaves behind. */
module Calls {
  import opened Bytes
  import opened Wire
  import opened CallStack
  import opened Refinement

  /** Bytes a primitive appends to the stack. */
  function Necesita(op: Op): nat {
    match op
    case Definir(_, _) => 5
    case LlamarSinRetorno(_) => 8
    case LlamarConRetorno(_, _) => 12
    case _ => 0
  }

  /** A primitive that pushes faults exactly when the stack segment has no room left for what it pushes. */
  lemma FaultIffExhausted(m: Maquina, a: Pila, op: Op)
    requires Rep(m, a) && Necesita(op) > 0
    ensures Paso(m, op).Some?
    ensures Paso(m, op).value.segFault <==> |Image(m.pcb.dirSegStack, a)| + Necesita(op) > |m.pila|
  {
    hide Encode, EncVars, EncSusp, EncMarco, EncEnlace, Diccionario;
    TopeIsImageEnd(m, a);
    PreservadoKeeps(m);
  }

  /** How often a primitive reports a fault: twice if and only if it is a call with a result for whose saved context
      there is no room, because the call goes on and faults again on the return address; at most once otherwise. */
  lemma TwoReportsIff(m: Maquina, op: Op)
    requires m.pcb.dirSegStack >= 0 && Tope(m) >= 0 && Paso(m, op).Some?
    ensures m.avisos <= Paso(m, op).value.avisos <= m.avisos + 2
    ensures Paso(m, op).value.avisos == m.avisos + 2 <==> op.LlamarConRetorno? && Tope(m) + 8 > |m.pila|
    ensures Paso(m, op).value.avisos > m.avisos ==> Paso(m, op).value.segFault
  {
    hide Encode, Splice, IntAt, DivC, Indice, Escaneo;
  }

  /** `finalizar` goes back to the suspended frame if and only if the frame was opened by a call without a
      result, or happens to have saved its own start both as program counter and as return address. */
  lemma FinalizarClosesIff(m: Maquina, a: Pila)
    requires Rep(m, a) && a.susp.Sobre?
    ensures var f, inicio := a.susp.marco, m.pcb.dirSegStack + Len(a.susp.debajo);
            (Finalizada(m).Some? && Rep(Finalizada(m).value, Desapilada(a)))
            <==> f.enlace.SinRetorno? || (f.pc == inicio && f.enlace.donde == inicio)
  {
    hide Encode, Decode, EncVars, EncSusp, EncMarco, EncEnlace, Diccionario, Escaneo, Legible, Indice, IntAt;
    var f, base := a.susp.marco, m.pcb.dirSegStack;
    SavedContext(m, a);
    PopRefines(m, a);
    if f.enlace.ConRetorno? {
      var off := m.pcb.dirCont - base - 8;
      assert Leido(m, off) == f.pc && Leido(m, off + 4) == f.enlace.donde;
      if f.pc == base + Len(a.susp.debajo) {
        assert m.pcb.dirCont - f.pc - 8 == 5 * |f.vars| + 4;
      }
    }
  }

  /** The last word of a linkage. */
  function UltimaPalabra(f: Marco): int {
    if f.enlace.SinRetorno? then f.pc else f.enlace.donde
  }

  lemma PastTheEnd(m: Maquina, a: Pila, offset: nat, b: seq<byte>)
    requires Rep(m, a) && |Image(m.pcb.dirSegStack, a)| <= offset && offset + |b| <= |m.pila|
    ensures Rep(m.(pila := Splice(m.pila, offset, b)), a)
  {
    hide Image, Diccionario;
    assert Splice(m.pila, offset, b)[..|Image(m.pcb.dirSegStack, a)|] == m.pila[..|Image(m.pcb.dirSegStack, a)|];
  }

  /** The word in front of the linkage of a caller without variables ends the linkage of the frame under it. */
  lemma WordInFront(m: Maquina, a: Pila)
    requires Rep(m, a) && a.susp.Sobre? && a.susp.marco.enlace.SinRetorno? && a.susp.marco.vars == [] && a.susp.debajo.Sobre?
    ensures var off := m.pcb.dirCont - m.pcb.dirSegStack - 12;
            InRange(m, off, 12) && Leido(m, off) == UltimaPalabra(a.susp.debajo.marco)
  {
    hide Encode, Decode, Image, Diccionario, Escaneo, Legible, Indice, IntAt;
    SavedContext(m, a);
    PopRefines(m, a);
    var n := Regenerada(ConPcb(m, 0, a.susp.marco.pc, m.pcb.dirSegStack + Len(a.susp.debajo))).value;
    SavedContext(n, Desapilada(a));
    assert n.pila == m.pila;
  }

  /** `retornar` takes a frame that was opened by a call without a result for one with: it goes back to the caller if
      and only if the caller has no variables, its own start happens to be both its program counter and the last
      word of the linkage under it, and there is such a linkage. */
  lemma RetornarClosesIff(m: Maquina, a: Pila, valor: int)
    requires Rep(m, a) && a.susp.Sobre? && a.susp.marco.enlace.SinRetorno?
    ensures var f, inicio := a.susp.marco, m.pcb.dirSegStack + Len(a.susp.debajo);
            (Retornada(m, valor).Some? && Rep(Retornada(m, valor).value, Desapilada(a)))
            <==> && f.vars == [] && f.pc == inicio
                 && a.susp.debajo.Sobre? && UltimaPalabra(a.susp.debajo.marco) == inicio
  {
    hide Encode, Decode, Image, EncVars, EncSusp, Diccionario, Escaneo, Legible, Indice, IntAt, Splice;
    var f, base := a.susp.marco, m.pcb.dirSegStack;
    var inicio, off := base + Len(a.susp.debajo), m.pcb.dirCont - base - 12;
    SavedContext(m, a);
    if InRange(m, off, 12) {
      assert Leido(m, off + 4) == inicio && Leido(m, off + 8) == f.pc;
      if Leido(m, off) == inicio && f.vars != [] {
        assert DivC(m.pcb.dirCont - inicio - 12, 5) == |f.vars| - 1;
      }
      if f.vars == [] {
        assert a.susp.debajo.Sobre?;
        WordInFront(m, a);
        if Leido(m, off) == inicio && f.pc == inicio {
          ComesBack(m, a, valor);
        }
      }
    }
  }

  lemma ComesBack(m: Maquina, a: Pila, valor: int)
    requires Rep(m, a) && a.susp.Sobre? && a.susp.marco.enlace.SinRetorno? && a.susp.marco.vars == []
    requires var off, inicio := m.pcb.dirCont - m.pcb.dirSegStack - 12, m.pcb.dirSegStack + Len(a.susp.debajo);
             InRange(m, off, 12) && Leido(m, off) == inicio && a.susp.marco.pc == inicio
    ensures Retornada(m, valor).Some? && Rep(Retornada(m, valor).value, Desapilada(a))
  {
    hide Encode, Decode, EncVars, EncSusp, Diccionario, Escaneo, Legible, Indice, IntAt, Splice;
    var inicio := m.pcb.dirSegStack + Len(a.susp.debajo);
    SavedContext(m, a);
    PopRefines(m, a);
    assert DivC(m.pcb.dirCont - inicio - 12, 5) == 0;
    var n := Regenerada(ConPcb(m, 0, inicio, inicio)).value;
    PastTheEnd(n, Desapilada(a), Len(a.susp.debajo) + 1, Encode(valor));
  }

  // ---- Balanced bodies ----

  /** `s` is `s0` with frames on top. */
  predicate Encima(s: Susp, s0: Susp) {
    s == s0 || (s.Sobre? && Encima(s.debajo, s0))
  }

  /** The primitive neither writes to a variable of the frames `s0` nor closes one of them. */
  predicate Confinado(base: int, a: Pila, op: Op, s0: Susp) {
    match op
    case Asignar(dir, _) => dir >= base + Len(s0)
    case Finalizar => a.susp != s0
    case Retornar(_) =>
      a.susp != s0 && (a.susp.Sobre? && a.susp.marco.enlace.ConRetorno? ==> a.susp.marco.enlace.donde >= base + Len(s0))
    case _ => true
  }

  predicate TodoConfinado(base: int, cap: nat, a: Pila, ops: seq<Op>, s0: Susp)
    decreases |ops|
  {
    ops != [] ==>
      && Confinado(base, a, ops[0], s0)
      && (PasoPila(base, cap, a, ops[0]).Some? ==>
            TodoConfinado(base, cap, PasoPila(base, cap, a, ops[0]).value, ops[1..], s0))
  }

  lemma {:induction false} EncimaLen(s: Susp, s0: Susp)
    requires Encima(s, s0)
    ensures Len(s0) <= Len(s)
  {
    if s != s0 {
      EncimaLen(s.debajo, s0);
    }
  }

  lemma {:induction false} LiveSuspBelow(base: int, s: Susp, dir: int)
    requires LiveSusp(base, s, dir)
    ensures dir < base + Len(s)
  {
    if !IsSlot(base + Len(s.debajo), s.marco.vars, dir) {
      LiveSuspBelow(base, s.debajo, dir);
    }
  }

  /** A write above the protected frames leaves them under the rest. */
  lemma {:induction false} SetSuspAbove(base: int, s: Susp, dir: int, v: int32, s0: Susp)
    requires Encima(s, s0) && LiveSusp(base, s, dir) && dir >= base + Len(s0)
    ensures Encima(SetSusp(base, s, dir, v), s0)
  {
    LiveSuspBelow(base, s, dir);
    if !IsSlot(base + Len(s.debajo), s.marco.vars, dir) {
      SetSuspAbove(base, s.debajo, dir, v, s0);
    }
  }

  lemma SetSlotAbove(base: int, a: Pila, dir: int, v: int32, s0: Susp)
    requires Encima(a.susp, s0) && Live(base, a, dir) && dir >= base + Len(s0)
    ensures Encima(SetSlot(base, a, dir, v).susp, s0)
  {
    if !IsSlot(base + Len(a.susp), a.vars, dir) {
      SetSuspAbove(base, a.susp, dir, v, s0);
    }
  }

  lemma ConfinedStep(base: int, cap: nat, a: Pila, op: Op, s0: Susp)
    requires Encima(a.susp, s0) && Confinado(base, a, op, s0) && PasoPila(base, cap, a, op).Some?
    ensures Encima(PasoPila(base, cap, a, op).value.susp, s0)
  {
    hide SetSlot, Live, Decode;
    match op
    case Asignar(dir, valor) => SetSlotAbove(base, a, dir, valor, s0);
    case Retornar(valor) => SetSlotAbove(base, Desapilada(a), a.susp.marco.enlace.donde, valor, s0);
    case _ =>
  }

  /** A confined run keeps the protected frames, whatever it calls and returns from above them. */
  lemma {:induction false} ConfinedRun(base: int, cap: nat, a: Pila, ops: seq<Op>, s0: Susp)
    requires Encima(a.susp, s0) && TodoConfinado(base, cap, a, ops, s0) && CorrerPila(base, cap, a, ops).Some?
    ensures Encima(CorrerPila(base, cap, a, ops).value.susp, s0)
    decreases |ops|
  {
    hide PasoPila, Confinado;
    if ops != [] {
      ConfinedStep(base, cap, a, ops[0], s0);
      ConfinedRun(base, cap, PasoPila(base, cap, a, ops[0]).value, ops[1..], s0);
    }
  }

  lemma {:induction false} CorrerPilaConcat(base: int, cap: nat, a: Pila, x: seq<Op>, y: seq<Op>)
    ensures CorrerPila(base, cap, a, x + y) ==
      match CorrerPila(base, cap, a, x) case None => None case Some(b) => CorrerPila(base, cap, b, y)
    decreases |x|
  {
    hide PasoPila;
    if x == [] {
      assert x + y == y;
    } else {
      assert (x + y)[1..] == x[1..] + y;
      match PasoPila(base, cap, a, x[0])
      case None =>
      case Some(a1) => CorrerPilaConcat(base, cap, a1, x[1..], y);
    }
  }

  /** On the abstract stack: a call, a confined body that ends in the frame it started in, and a return leave
      the caller as it was except for the variable that receives the result. */
  lemma BalancedCallPila(base: int, cap: nat, a: Pila, destino: int, donde: int, body: seq<Op>, valor: int)
    requires !a.fin && IsInt32(valor) && Live(base, a, donde)
    requires PasoPila(base, cap, a, Op.LlamarConRetorno(destino, donde)).Some?
    requires var a1 := PasoPila(base, cap, a, Op.LlamarConRetorno(destino, donde)).value;
             var r := CorrerPila(base, cap, a1, body);
             TodoConfinado(base, cap, a1, body, a1.susp) && r.Some? && Len(r.value.susp) == Len(a1.susp) && !r.value.fin
    ensures CorrerPila(base, cap, a, [Op.LlamarConRetorno(destino, donde)] + body + [Retornar(valor)])
         == Some(SetSlot(base, a, donde, valor))
  {
    hide SetSlot, Live;
    var op := Op.LlamarConRetorno(destino, donde);
    var a1 := PasoPila(base, cap, a, op).value;
    var a2 := CorrerPila(base, cap, a1, body).value;
    ConfinedRun(base, cap, a1, body, a1.susp);
    if a2.susp != a1.susp {
      EncimaLen(a2.susp.debajo, a1.susp);
    }
    assert Desapilada(a2) == a;
    var ops := [op] + body + [Retornar(valor)];
    assert ops[1..] == body + [Retornar(valor)];
    CorrerPilaConcat(base, cap, a1, body, [Retornar(valor)]);
    assert [Retornar(valor)][1..] == [];
  }

  /** On the bytes: the same call restores the whole control block and the dictionary, and below the top of
      the caller only the four value bytes of the receiving variable change. */
  lemma BalancedCall(m: Maquina, a: Pila, destino: int, donde: int, body: seq<Op>, valor: int)
    requires Rep(m, a) && !a.fin && IsInt32(valor) && Live(m.pcb.dirSegStack, a, donde)
    requires PasoPila(m.pcb.dirSegStack, |m.pila|, a, Op.LlamarConRetorno(destino, donde)).Some?
    requires var base, cap := m.pcb.dirSegStack, |m.pila|;
             var a1 := PasoPila(base, cap, a, Op.LlamarConRetorno(destino, donde)).value;
             var r := CorrerPila(base, cap, a1, body);
             TodoConfinado(base, cap, a1, body, a1.susp) && r.Some? && Len(r.value.susp) == Len(a1.susp) && !r.value.fin
    ensures var r := Correr(m, [Op.LlamarConRetorno(destino, donde)] + body + [Retornar(valor)]);
            var top, off := Tope(m), donde - m.pcb.dirSegStack + 1;
            && r.Some? && r.value.pcb == m.pcb && r.value.dic == m.dic
            && r.value.fin == m.fin && r.value.segFault == m.segFault && r.value.avisos == m.avisos
            && 0 <= off && off + 4 <= top <= |m.pila| && |r.value.pila| == |m.pila|
            && r.value.pila[..top] == Splice(m.pila[..top], off, Encode(valor))
  {
    hide Encode, EncVars, EncSusp, PasoPila, CorrerPila, Correr, TodoConfinado;
    var base, cap := m.pcb.dirSegStack, |m.pila|;
    var ops := [Op.LlamarConRetorno(destino, donde)] + body + [Retornar(valor)];
    BalancedCallPila(base, cap, a, destino, donde, body, valor);
    RunRefines(m, a, ops);
    OnlyThreeFields(m, ops);
    TopeIsImageEnd(m, a);
    SetSlotImage(base, a, donde, valor);
    SetSlotDiccionario(base, a, donde, valor, m.pcb.dirCont);
  }

  /** A call without a result and its `finalizar` leave no trace at all on the abstract stack. */
  lemma BalancedProcedurePila(base: int, cap: nat, a: Pila, destino: int, body: seq<Op>)
    requires !a.fin && PasoPila(base, cap, a, Op.LlamarSinRetorno(destino)).Some?
    requires var a1 := PasoPila(base, cap, a, Op.LlamarSinRetorno(destino)).value;
             var r := CorrerPila(base, cap, a1, body);
             TodoConfinado(base, cap, a1, body, a1.susp) && r.Some? && Len(r.value.susp) == Len(a1.susp) && !r.value.fin
    ensures CorrerPila(base, cap, a, [Op.LlamarSinRetorno(destino)] + body + [Finalizar]) == Some(a)
  {
    hide SetSlot, Live;
    var op := Op.LlamarSinRetorno(destino);
    var a1 := PasoPila(base, cap, a, op).value;
    var a2 := CorrerPila(base, cap, a1, body).value;
    ConfinedRun(base, cap, a1, body, a1.susp);
    if a2.susp != a1.susp {
      EncimaLen(a2.susp.debajo, a1.susp);
    }
    assert Desapilada(a2) == a;
    var ops := [op] + body + [Finalizar];
    assert ops[1..] == body + [Finalizar];
    CorrerPilaConcat(base, cap, a1, body, [Finalizar]);
    assert [Finalizar][1..] == [];
  }

  /** On the bytes: the control block, the dictionary and every byte below the top of the caller are as before. */
  lemma BalancedProcedure(m: Maquina, a: Pila, destino: int, body: seq<Op>)
    requires Rep(m, a) && !a.fin
    requires PasoPila(m.pcb.dirSegStack, |m.pila|, a, Op.LlamarSinRetorno(destino)).Some?
    requires var base, cap := m.pcb.dirSegStack, |m.pila|;
             var a1 := PasoPila(base, cap, a, Op.LlamarSinRetorno(destino)).value;
             var r := CorrerPila(base, cap, a1, body);
             TodoConfinado(base, cap, a1, body, a1.susp) && r.Some? && Len(r.value.susp) == Len(a1.susp) && !r.value.fin
    ensures var r, top := Correr(m, [Op.LlamarSinRetorno(destino)] + body + [Finalizar]), Tope(m);
            && r.Some? && r.value == m.(pila := r.value.pila)
            && 0 <= top <= |m.pila| && |r.value.pila| == |m.pila| && r.value.pila[..top] == m.pila[..top]
  {
    hide Encode, EncVars, EncSusp, PasoPila, CorrerPila, Correr, TodoConfinado;
    var ops := [Op.LlamarSinRetorno(destino)] + body + [Finalizar];
    BalancedProcedurePila(m.pcb.dirSegStack, |m.pila|, a, destino, body);
    RunRefines(m, a, ops);
    OnlyThreeFields(m, ops);
    TopeIsImageEnd(m, a);
  }

  /** Where a call leads: to the label, in an empty context right behind the linkage, where no name of the caller is
      known, with the caller's bytes in place. */
  lemma CallEnters(m: Maquina, a: Pila, op: Op)
    requires Rep(m, a) && (op.LlamarSinRetorno? || op.LlamarConRetorno?) && PasoPila(m.pcb.dirSegStack, |m.pila|, a, op).Some?
    ensures var (n, top) := (Paso(m, op), Tope(m));
            && n.Some? && !n.value.fin && n.value.pcb.pc == op.destino && n.value.pcb.cantVar == 0
            && n.value.pcb.dirCont == m.pcb.dirSegStack + top + (if op.LlamarSinRetorno? then 8 else 12)
            && (forall id :: Posicion(n.value, id) == None)
            && 0 <= top <= |m.pila| && |n.value.pila| == |m.pila| && n.value.pila[..top] == m.pila[..top]
  {
    hide Encode, EncVars, EncSusp;
    StepRefines(m, a, op);
    TopeIsImageEnd(m, a);
    PasoKeeps(m, op);
    PreservadoKeeps(m);
    ImageKept(m, a, Paso(m, op).value, PasoPila(m.pcb.dirSegStack, |m.pila|, a, op).value);
  }

  lemma ImageKept(m: Maquina, a: Pila, n: Maquina, b: Pila)
    requires Rep(m, a) && Rep(n, b) && n.pcb.dirSegStack == m.pcb.dirSegStack && b.susp.Sobre? && Desapilada(b).susp == a.susp
    requires b.susp.marco.vars == a.vars
    ensures Tope(m) <= |n.pila| && n.pila[..Tope(m)] == m.pila[..Tope(m)]
  {
    hide Encode, EncVars, EncSusp, EncEnlace, Diccionario;
    TopeIsImageEnd(m, a);
    LinkageHeld(n, b);
  }

  // ---- Unwinding ----

  /** What closes every suspended frame, youngest first. */
  function Cierres(s: Susp): seq<Op> {
    match s
    case Fondo => []
    case Sobre(debajo, f) => [if f.enlace.SinRetorno? then Finalizar else Retornar(0)] + Cierres(debajo)
  }

  lemma {:induction false} SetSuspCierres(base: int, s: Susp, dir: int, v: int32)
    requires LiveSusp(base, s, dir)
    ensures Cierres(SetSusp(base, s, dir, v)) == Cierres(s)
  {
    if !IsSlot(base + Len(s.debajo), s.marco.vars, dir) {
      SetSuspCierres(base, s.debajo, dir, v);
    }
  }

  lemma SetSlotCierres(base: int, a: Pila, dir: int, v: int32)
    requires Live(base, a, dir)
    ensures Cierres(SetSlot(base, a, dir, v).susp) == Cierres(a.susp)
  {
    if !IsSlot(base + Len(a.susp), a.vars, dir) {
      SetSuspCierres(base, a.susp, dir, v);
    }
  }

  /** Whether each frame opened by a call with a result has its return address in a variable of the frames
      below it. */
  predicate Retornables(base: int, s: Susp) {
    match s
    case Fondo => true
    case Sobre(debajo, f) =>
      && Retornables(base, debajo)
      && (f.enlace.ConRetorno? ==> Live(base, Pila(debajo, f.vars, f.pc, false), f.enlace.donde))
  }

  lemma {:induction false} SetSuspRetornables(base: int, s: Susp, dir: int, v: int32)
    requires LiveSusp(base, s, dir)
    ensures Retornables(base, SetSusp(base, s, dir, v)) <==> Retornables(base, s)
  {
    var inicio := base + Len(s.debajo);
    if !IsSlot(inicio, s.marco.vars, dir) {
      SetSuspRetornables(base, s.debajo, dir, v);
      if s.marco.enlace.ConRetorno? {
        GetSetSusp(base, s.debajo, dir, v, s.marco.enlace.donde);
      }
    }
  }

  lemma SetSlotRetornables(base: int, a: Pila, dir: int, v: int32)
    requires Live(base, a, dir)
    ensures Retornables(base, SetSlot(base, a, dir, v).susp) <==> Retornables(base, a.susp)
  {
    if !IsSlot(base + Len(a.susp), a.vars, dir) {
      SetSuspRetornables(base, a.susp, dir, v);
    }
  }

  /** Closing every frame meets no fault if and only if every result has where to go, and it empties the stack. */
  lemma {:induction false} CierresIff(base: int, cap: nat, a: Pila)
    requires !a.fin
    ensures CorrerPila(base, cap, a, Cierres(a.susp)).Some? <==> Retornables(base, a.susp)
    ensures CorrerPila(base, cap, a, Cierres(a.susp)).Some? ==>
      var b := CorrerPila(base, cap, a, Cierres(a.susp)).value; b.susp.Fondo? && !b.fin
    decreases Len(a.susp)
  {
    hide Live, SetSlot;
    if a.susp.Sobre? {
      var op := Cierres(a.susp)[0];
      var r := PasoPila(base, cap, a, op);
      assert Cierres(a.susp)[1..] == Cierres(a.susp.debajo);
      LiveWhatever(base, a);
      if r.Some? {
        if op.Retornar? {
          SetSlotCierres(base, Desapilada(a), a.susp.marco.enlace.donde, 0);
          SetSlotRetornables(base, Desapilada(a), a.susp.marco.enlace.donde, 0);
        }
        CierresIff(base, cap, r.value);
      }
    }
  }

  /** Being a variable depends on neither the program counter nor the end flag. */
  lemma LiveWhatever(base: int, a: Pila)
    requires a.susp.Sobre?
    ensures var f := a.susp.marco;
            f.enlace.ConRetorno? ==>
              (Live(base, Pila(a.susp.debajo, f.vars, f.pc, false), f.enlace.donde) <==> Live(base, Desapilada(a), f.enlace.donde))
  {
  }

  /** The saved pointers lead back, one frame a step, to the start of the segment and no further. The context
      starts there exactly when no frame is suspended; closing as many frames as there are meets no fault if and
      only if every result has where to go, and then it ends there, and one more `finalizar` ends the process. */
  lemma UnwindsToBase(m: Maquina, a: Pila)
    requires Rep(m, a) && !a.fin
    ensures m.pcb.dirCont == m.pcb.dirSegStack <==> a.susp.Fondo?
    ensures CorrerPila(m.pcb.dirSegStack, |m.pila|, a, Cierres(a.susp)).Some? <==> Retornables(m.pcb.dirSegStack, a.susp)
    ensures Retornables(m.pcb.dirSegStack, a.susp) ==>
      var r := Correr(m, Cierres(a.susp));
      && r.Some? && !r.value.fin && !r.value.segFault && r.value.pcb.dirCont == m.pcb.dirSegStack
      && Paso(r.value, Finalizar) == Some(r.value.(fin := true))
  {
    hide Encode, Image, Diccionario, PasoPila, CorrerPila, Correr;
    var base, cap := m.pcb.dirSegStack, |m.pila|;
    var ops := Cierres(a.susp);
    CierresIff(base, cap, a);
    if Retornables(base, a.susp) {
      RunRefines(m, a, ops);
      OnlyThreeFields(m, ops);
      OutermostReadable(Correr(m, ops).value, CorrerPila(base, cap, a, ops).value);
    }
  }
}
