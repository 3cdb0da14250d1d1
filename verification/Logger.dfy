/** The asynchronous logger of log/log.cpp: producers append to one list under a mutex, the logger thread swaps the
  * lists and prints the other one. Each method below is one atomic step of a thread; a run is any interleaving.
  */
module Logger {
  type Flags = bv32

  datatype Msg = Msg(level: Flags, time: nat, text: string)

  datatype Text = Null | Text(chars: string)

  /** Where the logger thread is. Flush(i, j): message i of the out list is next for printer j. */
  datatype Thread = Top | Holding | Waiting | Flush(msg: nat, printer: nat) | Returned

  /** Where finalise is. */
  datatype Final = NotCalled | Joining | LastFlush(msg: nat, printer: nat) | Finished

  /** Two levels have a bit in common. */
  predicate Meet(f: Flags, g: Flags) {
    f & g != 0
  }

  predicate Admits(printer: Flags, m: Msg) {
    Meet(printer, m.level)
  }

  /** Bit `i`, counted from the least significant one. */
  predicate Bit(f: Flags, i: bv32)
    requires i < 32
  {
    f & (1 << i) != 0
  }

  /** The place of a bit that is set, found by halving. */
  function SomeBit(f: Flags): (i: bv32)
    requires f != 0
    ensures i < 32 && Bit(f, i)
  {
    var a: bv32 := if f & 0xFFFF != 0 then 0 else 16;
    var b: bv32 := if (f >> a) & 0xFF != 0 then a else a + 8;
    var c: bv32 := if (f >> b) & 0xF != 0 then b else b + 4;
    var d: bv32 := if (f >> c) & 0x3 != 0 then c else c + 2;
    if (f >> d) & 0x1 != 0 then d else d + 1
  }

  lemma BothBits(f: Flags, g: Flags, i: bv32)
    requires i < 32
    ensures Bit(f & g, i) <==> Bit(f, i) && Bit(g, i)
    ensures !Bit(0, i)
  {
  }

  lemma SharedBit(f: Flags, g: Flags)
    ensures Meet(f, g) <==> exists i: bv32 :: i < 32 && Bit(f, i) && Bit(g, i)
  {
    hide Bit, SomeBit;
    if f & g != 0 {
      var i := SomeBit(f & g);
      BothBits(f, g, i);
      assert Bit(f, i);
    }
    if i: bv32 :| i < 32 && Bit(f, i) && Bit(g, i) {
      BothBits(f, g, i);
    }
  }

  /** A printer admits a message exactly when some bit is set both in its level and in that of the message. */
  lemma AdmitsSharedBit(printer: Flags, m: Msg)
    ensures Admits(printer, m) <==> exists i: bv32 :: i < 32 && Bit(printer, i) && Bit(m.level, i)
  {
    hide Bit, Meet;
    SharedBit(printer, m.level);
  }

  /** One message is for a printer or it is not; with AdmittedConcat this settles every run of messages. */
  lemma AdmittedOne(printer: Flags, m: Msg)
    ensures Admitted(printer, [m]) == if Meet(printer, m.level) then [m] else []
  {
    hide Meet;
    assert [m][..0] == [];
  }

  /** The messages a printer is to get, in order. */
  function Admitted(printer: Flags, ms: seq<Msg>): seq<Msg> {
    if ms == [] then []
    else
      var rest := Admitted(printer, ms[..|ms| - 1]);
      if Admits(printer, ms[|ms| - 1]) then rest + [ms[|ms| - 1]] else rest
  }

  /** Those that have a level bit in common with it. */
  lemma {:induction false} AdmittedMembers(printer: Flags, ms: seq<Msg>)
    ensures forall m :: m in Admitted(printer, ms) <==> m in ms && Meet(printer, m.level)
  {
    hide Meet;
    if ms != [] {
      AdmittedMembers(printer, ms[..|ms| - 1]);
      assert forall m :: m in ms <==> m in ms[..|ms| - 1] || m == ms[|ms| - 1];
    }
  }

  lemma {:induction false} AdmittedPrefix(printer: Flags, ms: seq<Msg>, n: nat)
    requires n <= |ms|
    ensures Admitted(printer, ms[..n]) <= Admitted(printer, ms)
  {
    if n < |ms| {
      AdmittedPrefix(printer, ms[..|ms| - 1], n);
      assert ms[..|ms| - 1][..n] == ms[..n];
    } else {
      assert ms[..n] == ms;
    }
  }

  lemma AdmittedNext(printer: Flags, ms: seq<Msg>, n: nat)
    requires n < |ms|
    ensures Admitted(printer, ms[..n + 1]) ==
            Admitted(printer, ms[..n]) + if Admits(printer, ms[n]) then [ms[n]] else []
  {
    assert ms[..n + 1][..n] == ms[..n] && ms[..n + 1][n] == ms[n];
  }

  /** Each printer has been given what it admits of the first `done` messages, the first `j` printers one more. */
  predicate Given(printers: seq<Flags>, outputs: seq<seq<Msg>>, accepted: seq<Msg>, done: nat, j: nat) {
    && |outputs| == |printers| && j <= |printers|
    && done <= |accepted| && (j > 0 ==> done < |accepted|)
    && forall k :: 0 <= k < |printers| ==>
         outputs[k] == Admitted(printers[k], accepted[..if k < j then done + 1 else done])
  }

  lemma GivenGrows(printers: seq<Flags>, outputs: seq<seq<Msg>>, accepted: seq<Msg>, done: nat, j: nat, m: Msg)
    requires Given(printers, outputs, accepted, done, j)
    ensures Given(printers, outputs, accepted + [m], done, j)
    ensures (accepted + [m])[done..] == accepted[done..] + [m]
  {
    hide Admitted;
    forall n: nat | n <= |accepted| ensures (accepted + [m])[..n] == accepted[..n] {
    }
  }

  lemma Joined(rest: seq<Msg>, more: seq<Msg>, m: Msg)
    ensures rest + more + [m] == rest + (more + [m])
  {
  }

  /** Where a flush is after one more offer. */
  function NextOffer(t: Thread, printers: nat): Thread
    requires t.Flush?
  {
    if t.printer < printers then Flush(t.msg, t.printer + 1) else Flush(t.msg + 1, 0)
  }

  class Log {
    const printers: seq<Flags>     // getLevel() of each registered printer
    var lists: seq<seq<Msg>>       // mMsgs1 and mMsgs2
    var inlist: nat                // mInlist and mOutlist, as indices
    var outlist: nat
    var level: Flags
    var hasTime: bool
    var exiting: bool              // mbExit
    var thread: Thread
    var final: Final
    var outputs: seq<seq<Msg>>     // what each printer was given
    ghost var accepted: seq<Msg>   // every message appended, in the order of the lock
    ghost var done: nat            // how many of them every printer has been offered

    /** The mutex is held between two steps only while the logger thread looks at the in list. */
    predicate Locked()
      reads this
    {
      thread == Holding
    }

    ghost predicate Valid()
      reads this
    {
      && |lists| == 2 && inlist < 2 && outlist < 2
      && match final
         case NotCalled => !exiting && thread != Returned && Working()
         case Joining => exiting && Working()
         case LastFlush(i, j) => exiting && thread == Returned && inlist == outlist && At(i, j, [])
         case Finished => exiting && thread == Returned && inlist == outlist && lists[outlist] == [] && At(0, 0, [])
    }

    /** While the logger thread may run: the out list is empty except during a flush. */
    ghost predicate Working()
      requires |lists| == 2 && inlist < 2 && outlist < 2
      reads this
    {
      && inlist != outlist
      && match thread
         case Flush(i, j) => At(i, j, lists[inlist])
         case _ => lists[outlist] == [] && At(0, 0, lists[inlist])
    }

    /** printed ++ rest of the out list ++ `more` == accepted, and every printer has its part of what is printed. */
    ghost predicate At(i: nat, j: nat, more: seq<Msg>)
      requires |lists| == 2 && outlist < 2
      reads this
    {
      && i <= |lists[outlist]| && (j > 0 ==> i < |lists[outlist]|)
      && Given(printers, outputs, accepted, done, j)
      && accepted[done..] == lists[outlist][i..] + more
    }

    /** The state right after initialise. */
    constructor (levels: seq<Flags>, lvl: Flags, stamped: bool)
      ensures Valid() && printers == levels && accepted == [] && final == NotCalled && !Locked()
    {
      printers := levels;
      lists, inlist, outlist := [[], []], 0, 1;
      level, hasTime, exiting, thread, final := lvl, stamped, false, Top, NotCalled;
      outputs := seq(|levels|, _ => []);
      accepted, done := [], 0;
    }

    /** Log::printLog up to the mutex: the level is looked at without it, at any moment. */
    method PassesLevel(lvl: Flags, msg: Text) returns (passes: bool)
      ensures passes <==> msg.Text? && level & lvl != 0
    {
      if msg.Null? { return false; }
      if level & lvl == 0 { return false; }
      return true;
    }

    /** The critical section of Log::printLog; the level may have changed by now. `now` is the clock. */
    method Append(lvl: Flags, msg: string, now: nat)
      requires Valid() && !Locked() && final in {NotCalled, Joining}
      modifies this`lists, this`accepted
      ensures Valid() && accepted == old(accepted) + [Msg(lvl, if hasTime then now else 0, msg)]
    {
      hide Admitted, Given;
      var node := Msg(lvl, if hasTime then now else 0, msg);
      ghost var i, j := if thread.Flush? then thread.msg else 0, if thread.Flush? then thread.printer else 0;
      assert At(i, j, lists[inlist]);
      GivenGrows(printers, outputs, accepted, done, j, node);
      Joined(lists[outlist][i..], lists[inlist], node);
      lists := lists[inlist := lists[inlist] + [node]];
      accepted := accepted + [node];
      assert At(i, j, lists[inlist]);
    }

    /** Log::printLog when nothing comes between. */
    method PrintLog(lvl: Flags, msg: Text, now: nat)
      requires Valid() && !Locked() && final in {NotCalled, Joining}
      modifies this`lists, this`accepted
      ensures Valid()
      ensures accepted == old(accepted) + if msg.Text? && level & lvl != 0
                                          then [Msg(lvl, if hasTime then now else 0, msg.chars)] else []
    {
      hide Valid;
      var passes := PassesLevel(lvl, msg);
      if passes { Append(lvl, msg.chars, now); }
    }

    /** Log::setLogLevel */
    method SetLogLevel(lvl: Flags) returns (was: Flags)
      requires Valid() && !Locked()
      modifies this`level
      ensures Valid() && was == old(level) && level == lvl
    {
      hide Admitted, Given;
      was := level;
      level := lvl;
    }

    /** One step of Log::_logProc and, while it flushes, of Log::_flushOutlist. */
    method LoggerStep()
      requires Valid() && final in {NotCalled, Joining} && thread != Returned
      modifies this`lists, this`inlist, this`outlist, this`thread, this`outputs, this`done
      ensures Valid()
      ensures old(thread) == Top ==> thread == if exiting then Returned else Holding
      ensures old(thread) == Waiting ==> thread == Holding
      ensures old(thread) == Holding ==>
                old(lists[outlist]) == []
                && (if old(lists[inlist]) == [] && !exiting then thread == Waiting
                    else
                      thread == Flush(0, 0) && lists == old(lists)
                      && inlist == old(outlist) && outlist == old(inlist))
      ensures old(thread).Flush? ==>
                thread == if old(thread.msg) == |old(lists[outlist])| then Top else NextOffer(old(thread), |printers|)
    {
      hide Admitted, Given;
      match thread {
        case Top =>
          thread := if exiting then Returned else Holding;
        case Holding =>
          if lists[inlist] == [] && !exiting {
            thread := Waiting;
          } else {
            inlist, outlist := outlist, inlist;
            thread := Flush(0, 0);
          }
        case Waiting =>
          thread := Holding;
        case Flush(i, j) =>
          if i < |lists[outlist]| {
            var i', j' := Offer(i, j, lists[inlist]);
            thread := Flush(i', j');
          } else {
            lists := lists[outlist := []];
            thread := Top;
          }
      }
    }

    /** The inner loop of _flushOutlist, one printer at a time. */
    method Offer(i: nat, j: nat, ghost more: seq<Msg>) returns (i': nat, j': nat)
      requires |lists| == 2 && outlist < 2 && At(i, j, more) && i < |lists[outlist]|
      modifies this`outputs, this`done
      ensures |outputs| == |old(outputs)|
      ensures At(i', j', more) && Flush(i', j') == NextOffer(Flush(i, j), |printers|)
      ensures forall k :: 0 <= k < |outputs| ==>
                var m := lists[outlist][i];
                outputs[k] == old(outputs)[k] + if k == j && j < |printers| && Meet(printers[j], m.level) then [m]
                  else []
    {
      hide Meet;
      var m := lists[outlist][i];
      assert m == accepted[done];
      if j < |printers| {
        AdmittedNext(printers[j], accepted, done);
        if Admits(printers[j], m) {
          outputs := outputs[j := outputs[j] + [m]];
        }
        i', j' := i, j + 1;
      } else {
        done := done + 1;
        i', j' := i + 1, 0;
      }
    }

    /** The first statement of Log::finalise. */
    method Finalise()
      requires Valid() && final == NotCalled
      modifies this`exiting, this`final
      ensures Valid() && final == Joining
    {
      hide Admitted, Given;
      exiting := true;
      final := Joining;
    }

    /** The rest of Log::finalise: pthread_join, then the in list is flushed like an out list. */
    method FinaliseStep()
      requires Valid() && (final.LastFlush? || (final.Joining? && thread == Returned))
      modifies this`lists, this`outlist, this`final, this`outputs, this`done
      ensures Valid() && (old(final).Joining? ==> final == LastFlush(0, 0))
      ensures old(final).LastFlush? ==>
                final == if old(final.msg) == |old(lists[outlist])| then Finished
                         else
                           var t := NextOffer(Flush(old(final.msg), old(final.printer)), |printers|);
                           LastFlush(t.msg, t.printer)
    {
      hide Admitted, Given;
      match final {
        case Joining =>
          outlist := inlist;
          final := LastFlush(0, 0);
        case LastFlush(i, j) =>
          if i < |lists[outlist]| {
            var i', j' := Offer(i, j, []);
            final := LastFlush(i', j');
          } else {
            lists := lists[outlist := []];
            final := Finished;
          }
      }
    }
  }

  /** What a printer is to get of two runs of messages is what it is to get of one, then of the other. */
  lemma {:induction false} AdmittedConcat(printer: Flags, a: seq<Msg>, b: seq<Msg>)
    ensures Admitted(printer, a + b) == Admitted(printer, a) + Admitted(printer, b)
  {
    if b == [] {
      assert a + b == a;
    } else {
      AdmittedConcat(printer, a, b[..|b| - 1]);
      assert (a + b)[..|a + b| - 1] == a + b[..|b| - 1];
    }
  }

  /** At every moment of every run each printer has been given an initial part of what it admits, in lock order; once
    * finalise has returned it has been given all of it, each message once.
    */
  lemma Delivered(log: Log, k: nat)
    requires log.Valid() && k < |log.printers|
    ensures k < |log.outputs| && log.outputs[k] <= Admitted(log.printers[k], log.accepted)
    ensures log.final == Finished ==> log.outputs[k] == Admitted(log.printers[k], log.accepted)
    ensures log.final == Finished ==>
              forall m :: m in log.outputs[k] <==> m in log.accepted && Meet(log.printers[k], m.level)
  {
    hide Meet;
    AdmittedMembers(log.printers[k], log.accepted);
    var j := if log.final.LastFlush? then log.final.printer
             else if log.final != Finished && log.thread.Flush? then log.thread.printer else 0;
    assert Given(log.printers, log.outputs, log.accepted, log.done, j);
    AdmittedPrefix(log.printers[k], log.accepted, if k < j then log.done + 1 else log.done);
    assert log.final == Finished ==> log.accepted[..log.done] == log.accepted;
  }

  /** Nothing accepted is lost on the way: what has not been offered to the printers is in the two lists, in order. */
  lemma Kept(log: Log)
    requires log.Valid()
    ensures log.done <= |log.accepted| && |log.lists| == 2 && log.inlist < 2 && log.outlist < 2
    ensures log.final in {NotCalled, Joining} && !log.thread.Flush? ==>
              log.lists[log.outlist] == [] && log.accepted == log.accepted[..log.done] + log.lists[log.inlist]
    ensures log.final in {NotCalled, Joining} && log.thread.Flush? ==>
              log.thread.msg <= |log.lists[log.outlist]|
              && var rest := log.lists[log.outlist][log.thread.msg..];
              log.accepted == log.accepted[..log.done] + rest + log.lists[log.inlist]
  {
    hide Admitted;
    assert log.accepted == log.accepted[..log.done] + log.accepted[log.done..];
    if log.final in {NotCalled, Joining} && log.thread.Flush? {
      var rest := log.lists[log.outlist][log.thread.msg..];
      var printed, more := log.accepted[..log.done], log.lists[log.inlist];
      assert printed + (rest + more) == printed + rest + more;
    }
  }

  /** A call of printLog between its two steps. */
  datatype Call = Call(level: Flags, text: string)

  /** Any interleaving of producers, the logger thread and finalise. */
  method Run(log: Log, steps: nat)
    requires log.Valid()
    modifies log
    ensures log.Valid() && old(log.accepted) <= log.accepted
    ensures |log.outputs| == |log.printers|
    ensures log.final == Finished ==> forall k :: 0 <= k < |log.printers| ==>
              log.outputs[k] == Admitted(log.printers[k], log.accepted)
  {
    hide Log.Valid, Admitted, Admits;
    var calls: seq<Call> := [];  // past the level test, waiting for the mutex
    var i := 0;
    while i < steps
      invariant log.Valid() && old(log.accepted) <= log.accepted
      decreases steps - i
    {
      if {
      case true =>
        var lvl: Flags, msg: Text := *, *;
        var passes := log.PassesLevel(lvl, msg);
        if passes { calls := calls + [Call(lvl, msg.chars)]; }
      case calls != [] && log.final in {NotCalled, Joining} && !log.Locked() =>
        var k: nat, now: nat := *, *;
        if k < |calls| {
          log.Append(calls[k].level, calls[k].text, now);
          calls := calls[..k] + calls[k + 1..];
        }
      case !log.Locked() =>
        var lvl: Flags := *;
        var was := log.SetLogLevel(lvl);
      case log.final in {NotCalled, Joining} && log.thread != Returned =>
        log.LoggerStep();
      case log.final == NotCalled =>
        log.Finalise();
      case log.final.LastFlush? || (log.final.Joining? && log.thread == Returned) =>
        log.FinaliseStep();
      case true =>  // some other thread
      }
      i := i + 1;
    }
    Outputs(log);
    forall k: nat | k < |log.printers|
      ensures log.final == Finished ==> log.outputs[k] == Admitted(log.printers[k], log.accepted)
    {
      Delivered(log, k);
    }
  }

  lemma Outputs(log: Log)
    requires log.Valid()
    ensures |log.outputs| == |log.printers|
  {
  }
}
