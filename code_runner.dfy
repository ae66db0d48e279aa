/** src/components/CodeRunner.tsx: the "C Logic Studio" logic tracer, which does not
    compile the code but recognises two textbook snippets by their text. The 800 ms
    timer is modelled as a separate call, `Tick`, that handles the oldest run still
    due with the code as it was when that run started. */
module CodeRunner {
  import opened Common

  const TracingMessage := "Tracing logic..."

  const InitTrace := ["Initializing Stack Frame...", "Entry: main()"]

  const IndirectTrace := ["x located at 0x7ffd", "p points to 0x7ffd", "Value at 0x7ffd updated to 20", "Output: 20"]

  const StaticTrace := ["Static variable detected in data segment.", "Value persists across calls."]

  const DefaultCode := "int main() {\n    int x = 10, *p;\n    p = &x;\n    *p = 20;\n    printf(\"%d\", x);\n    return 0;\n}"

  datatype Snippet = IndirectWrite | StaticVariable | Unrecognised

  /** The snippet a text is taken for, the write through `p` being checked first. */
  function Recognise(code: string): Snippet {
    if Contains(code, "*p = 20") && Contains(code, "printf") then IndirectWrite
    else if Contains(code, "static") then StaticVariable
    else Unrecognised
  }

  /** What the tracer prints for a snippet. */
  function Output(s: Snippet): string {
    match s
    case IndirectWrite => "20"
    case StaticVariable => "Persistent state detected."
    case Unrecognised => "Execution Complete. (Simulation Mode)"
  }

  /** The trace lines appended for a snippet. */
  function ExtraTrace(s: Snippet): seq<string> {
    match s
    case IndirectWrite => IndirectTrace
    case StaticVariable => StaticTrace
    case Unrecognised => []
  }

  /** The three answers differ, so the output tells which snippet was recognised; the
      trace grows by four, two or no lines. */
  lemma OutputsIdentify(a: Snippet, b: Snippet)
    ensures Output(a) == Output(b) <==> a == b
    ensures |ExtraTrace(a)| == (match a case IndirectWrite => 4 case StaticVariable => 2 case Unrecognised => 0)
  {
  }

  /** Any code that writes `*p = 20` and later calls `printf` is the write-through-`p` snippet,
      whatever else it contains — `static` included. */
  lemma IndirectWriteSnippet(a: string, b: string, c: string)
    ensures Recognise(a + "*p = 20" + b + "printf" + c) == IndirectWrite
  {
    var code := a + "*p = 20" + b + "printf" + c;
    assert code == a + "*p = 20" + (b + "printf" + c);
    Inside(a, "*p = 20", b + "printf" + c);
    assert code == (a + "*p = 20" + b) + "printf" + c;
    Inside(a + "*p = 20" + b, "printf", c);
  }

  lemma Inside(a: string, p: string, b: string)
    ensures Contains(a + p + b, p)
  {
    assert (a + p + b)[|a|..|a| + |p|] == p;
    ContainsAt(a + p + b, p, |a|);
  }

  class Runner {
    var code: string
    var output: string
    var tracing: seq<string>
    /** The code captured by each run whose timer has not fired yet, oldest first. */
    var due: seq<string>

    constructor ()
      ensures code == DefaultCode && output == "" && tracing == [] && due == []
    {
      code := DefaultCode;
      output := "";
      tracing := [];
      due := [];
    }

    /** The editor's `onChange`. */
    method SetCode(text: string)
      modifies this
      ensures code == text && output == old(output) && tracing == old(tracing) && due == old(due)
    {
      code := text;
    }

    /** `handleRun` up to the timer: the "tracing" message, the trace restarted with the
        two initialisation lines, and the current code kept for the timer. */
    method HandleRun()
      modifies this
      ensures output == TracingMessage && tracing == InitTrace
      ensures due == old(due) + [old(code)] && code == old(code)
    {
      output := TracingMessage;
      tracing := InitTrace;
      due := due + [code];
    }

    /** The timer of the oldest run: the answer for its code, the snippet's lines
        appended to the trace as it is now. */
    method Tick()
      requires due != []
      modifies this
      ensures output == Output(Recognise(old(due)[0]))
      ensures tracing == old(tracing) + ExtraTrace(Recognise(old(due)[0]))
      ensures due == old(due)[1..] && code == old(code)
    {
      var captured := due[0];
      due := due[1..];
      if Contains(captured, "*p = 20") && Contains(captured, "printf") {
        output := "20";
        tracing := tracing + ["x located at 0x7ffd", "p points to 0x7ffd", "Value at 0x7ffd updated to 20", "Output: 20"];
      } else if Contains(captured, "static") {
        output := "Persistent state detected.";
        tracing := tracing + ["Static variable detected in data segment.", "Value persists across calls."];
      } else {
        output := "Execution Complete. (Simulation Mode)";
      }
    }
  }

  /** A run whose timer fires before anything else happens ends with the answer for
      the code and the initialisation lines followed by the snippet's lines. */
  method RunToCompletion(r: Runner)
    requires r.due == []
    modifies r
    ensures r.output == Output(Recognise(old(r.code)))
    ensures r.tracing == InitTrace + ExtraTrace(Recognise(old(r.code)))
    ensures r.due == [] && r.code == old(r.code)
  {
    r.HandleRun();
    r.Tick();
  }
}
