/**
 * The PoP component of the app: the in-memory lists of final statements and PoP
 * tokens, the flag telling whether they have been loaded, and the operations that
 * append, empty and reset them.  File writes are outcomes passed in by the caller;
 * what the component asks to be written is returned.
 */
module Pop {
  import opened Values
  import opened Helper
  import opened CothorityMessages

  /** How a call ends: it throws before returning, or its promise resolves or rejects. */
  datatype Completion = Threw(e: Error) | Resolved | Rejected(e: Error)

  datatype FilePath = FinalStatementsFile | PopTokenFile

  /** What is written: the empty text, or the JSON text of a value. */
  datatype Text = EmptyText | JsonOf(v: Value)

  datatype FileWrite = FileWrite(path: FilePath, text: Text)

  /** The file contents that hold a list of final statements: `{ array: [...] }`. */
  function ListDocument(list: seq<Value>): Value {
    Object([Prop("array", Array(list))])
  }

  predicate AllOfType(list: seq<Value>, name: string) {
    forall i :: 0 <= i < |list| ==> HasType(list[i], name)
  }

  class PoP {
    var isLoaded: bool
    var finalStatements: seq<Value>
    var popTokens: seq<Value>

    /** The lists only ever hold records of their type. */
    predicate Valid()
      reads this
    {
      AllOfType(finalStatements, FINAL_STATEMENT) && AllOfType(popTokens, POP_TOKEN)
    }

    /** `new PoP()`: not loaded, both lists empty. */
    constructor ()
      ensures Valid()
      ensures !isLoaded && finalStatements == [] && popTokens == []
    {
      isLoaded := false;
      finalStatements := [];
      popTokens := [];
    }

    /** `setFinalStatementsArray(array, save)`: the argument checks only; nothing is stored. */
    method SetFinalStatementsArray(list: Value, save: Value) returns (r: Result<Value>)
      ensures r.Ok? <==> list.Array? && HasType(First(list.elems), FINAL_STATEMENT) && save.Bool?
      ensures r.Ok? ==> r.value == Undefined
    {
      if !list.Array? {
        return Err(BadArgument("array"));
      }
      var checked := RequireType(First(list.elems), FINAL_STATEMENT, "array[i]");
      if checked.Err? {
        return Err(checked.error);
      }
      if !save.Bool? {
        return Err(BadArgument("save"));
      }
      r := Ok(Undefined);
    }

    /** `setPopTokenArray(array, save)`: the argument checks only; nothing is stored. */
    method SetPopTokenArray(list: Value, save: Value) returns (r: Result<Value>)
      ensures r.Ok? <==> list.Array? && HasType(First(list.elems), POP_TOKEN) && save.Bool?
      ensures r.Ok? ==> r.value == Undefined
    {
      if !list.Array? {
        return Err(BadArgument("array"));
      }
      var checked := RequireType(First(list.elems), POP_TOKEN, "array[i]");
      if checked.Err? {
        return Err(checked.error);
      }
      if !save.Bool? {
        return Err(BadArgument("save"));
      }
      r := Ok(Undefined);
    }

    /** `emptyFinalStatementArray()`: pop until empty; the tokens and the flag stay. */
    method EmptyFinalStatementArray()
      requires Valid()
      modifies this
      ensures Valid()
      ensures finalStatements == [] && popTokens == old(popTokens) && isLoaded == old(isLoaded)
    {
      while |finalStatements| > 0
        invariant Valid()
        invariant finalStatements == old(finalStatements)[..|finalStatements|]
        invariant popTokens == old(popTokens) && isLoaded == old(isLoaded)
        decreases |finalStatements|
      {
        finalStatements := finalStatements[..|finalStatements| - 1];
      }
    }

    /** `emptyPopTokenArray()`: pop until empty; the final statements and the flag stay. */
    method EmptyPopTokenArray()
      requires Valid()
      modifies this
      ensures Valid()
      ensures popTokens == [] && finalStatements == old(finalStatements) && isLoaded == old(isLoaded)
    {
      while |popTokens| > 0
        invariant Valid()
        invariant popTokens == old(popTokens)[..|popTokens|]
        invariant finalStatements == old(finalStatements) && isLoaded == old(isLoaded)
        decreases |popTokens|
      {
        popTokens := popTokens[..|popTokens| - 1];
      }
    }

    /**
     * `addFinalStatement(finalStatement, save)`: check, append, and when saving write
     * the whole new list; `writeSucceeds` is the outcome of that write.  When the write
     * fails, the list is restored to what it was and the promise rejects with the
     * write's error.
     */
    method AddFinalStatement(finalStatement: Value, save: Value, writeSucceeds: bool)
      returns (c: Completion, write: Option<FileWrite>)
      requires Valid()
      modifies this
      ensures Valid()
      ensures c.Threw? <==> !(HasType(finalStatement, FINAL_STATEMENT) && save.Bool?)
      ensures c.Threw? ==> finalStatements == old(finalStatements) && write == None
      ensures popTokens == old(popTokens) && isLoaded == old(isLoaded)
      ensures !c.Threw? && !save.b ==> c == Resolved && write == None && finalStatements == old(finalStatements) + [finalStatement]
      ensures !c.Threw? && save.b ==>
        write == Some(FileWrite(FinalStatementsFile, JsonOf(ListDocument(old(finalStatements) + [finalStatement]))))
      ensures !c.Threw? && save.b && writeSucceeds ==> c == Resolved && finalStatements == old(finalStatements) + [finalStatement]
      ensures !c.Threw? && save.b && !writeSucceeds ==> c == Rejected(WriteFailed) && finalStatements == old(finalStatements)
    {
      var checked := RequireType(finalStatement, FINAL_STATEMENT, "finalStatement");
      if checked.Err? {
        return Threw(checked.error), None;
      }
      if !save.Bool? {
        return Threw(BadArgument("save")), None;
      }
      var oldFinalStatements := finalStatements;
      finalStatements := finalStatements + [finalStatement];
      var newFinalStatements := finalStatements;
      if save.b {
        var toWrite := EmptyText;
        if |newFinalStatements| > 0 {
          toWrite := JsonOf(ListDocument(newFinalStatements));
        }
        write := Some(FileWrite(FinalStatementsFile, toWrite));
        if writeSucceeds {
          c := Resolved;
        } else {
          finalStatements := oldFinalStatements;
          c := Rejected(WriteFailed);
        }
      } else {
        c, write := Resolved, None;
      }
    }

    /**
     * `reset()`: clear the flag, truncate both files, and only when both writes succeed
     * empty both lists and set the flag again.
     */
    method Reset(finalWriteSucceeds: bool, tokenWriteSucceeds: bool) returns (c: Completion, writes: seq<FileWrite>)
      requires Valid()
      modifies this
      ensures Valid()
      ensures writes == [FileWrite(FinalStatementsFile, EmptyText), FileWrite(PopTokenFile, EmptyText)]
      ensures finalWriteSucceeds && tokenWriteSucceeds ==>
        c == Resolved && isLoaded && finalStatements == [] && popTokens == []
      ensures !(finalWriteSucceeds && tokenWriteSucceeds) ==>
        c == Rejected(WriteFailed) && !isLoaded
        && finalStatements == old(finalStatements) && popTokens == old(popTokens)
    {
      isLoaded := false;
      writes := [FileWrite(FinalStatementsFile, EmptyText), FileWrite(PopTokenFile, EmptyText)];
      if finalWriteSucceeds && tokenWriteSucceeds {
        EmptyFinalStatementArray();
        EmptyPopTokenArray();
        isLoaded := true;
        c := Resolved;
      } else {
        c := Rejected(WriteFailed);
      }
    }
  }

  // ---------------------------------------------------------------- the rollback as written

  /**
   * The `.catch` of a failed write as the source has it: it calls
   * `setFinalStatementsArray(oldFinalStatements, false)`, whose body is a stub that
   * returns `undefined`, and then `.then` on that.  An empty old list fails the
   * stub's first-element check; any other list reaches `.then` of `undefined`.
   */
  function RollbackAsWritten(oldList: seq<Value>): (c: Completion)
    ensures c.Rejected?
  {
    match RequireType(First(oldList), FINAL_STATEMENT, "array[i]")
    case Err(e) => Rejected(e)
    case Ok(_) => Rejected(EngineTypeError)   // `undefined.then(...)`
  }

  /** The list and the completion a failed save leaves behind, as written: the new element stays. */
  function FailedSaveAsWritten(oldList: seq<Value>, finalStatement: Value): (seq<Value>, Completion) {
    (oldList + [finalStatement], RollbackAsWritten(oldList))
  }

  /**
   * As written, a failed save neither restores the list nor reports the write's
   * error: the new statement stays in the PoP's list, and the promise rejects with
   * the stub's error (a type error, or the stub's own argument error when the list
   * was empty).
   */
  lemma RollbackAsWrittenLosesWriteError(pop: PoP, finalStatement: Value)
    requires pop.Valid()
    ensures var oldList := pop.finalStatements;
      var (list, c) := FailedSaveAsWritten(oldList, finalStatement);
      list != oldList && |list| == |oldList| + 1 && c != Rejected(WriteFailed)
      && (oldList == [] ==> c == Rejected(BadArgument("object")))
      && (oldList != [] ==> c == Rejected(EngineTypeError))
  {
    var oldList := pop.finalStatements;
    assert |oldList + [finalStatement]| == |oldList| + 1;
  }
}
