/** The evaluator's run-time data: `ReturnValue`, the variable table behind `Context`, and
    the output buffer of `Printer`. */
module Values {
  import opened Wrappers

  /** `ReturnValue`: a tagged union. Floats are kept as exact reals; see the README for
      what that leaves out. */
  datatype Value = IntV(i: int) | FloatV(x: real) | StrV(s: string) | BoolV(b: bool) | NullV

  /** What an evaluation hands back: a value, or the null pointer an unbound name yields. */
  type Slot = Option<Value>

  /** `is_numerical`. */
  predicate IsNumeric(v: Value) {
    v.IntV? || v.FloatV?
  }

  /** `as_numerical`: the number an int or a float stands for. */
  function AsReal(v: Value): (x: real)
    requires IsNumeric(v)
    ensures v.IntV? ==> x == v.i as real
    ensures v.FloatV? ==> x == v.x
  {
    if v.IntV? then v.i as real else v.x
  }

  /** The variable table: names to the slot last stored under them. */
  type Env = map<string, Slot>

  /** `SymbolTable::add` / `Context::insert_var`: a later binding replaces an earlier one. */
  function Bind(env: Env, name: string, v: Slot): (r: Env)
    ensures r.Keys == env.Keys + {name}
    ensures Lookup(r, name) == v
    ensures forall n :: n in env && n != name ==> r[n] == env[n]
  {
    env[name := v]
  }

  /** `SymbolTable::get` / `Context::get_val`: the stored slot, or null for a name never bound. */
  function Lookup(env: Env, name: string): (r: Slot)
    ensures name !in env ==> r.None?
    ensures name in env ==> r == env[name]
  {
    if name in env then env[name] else None
  }

  /** A binding is visible to every later lookup of that name and hides nothing else. */
  lemma BindThenLookup(env: Env, name: string, other: string, v: Slot)
    ensures Lookup(Bind(env, name, v), name) == v
    ensures other != name ==> Lookup(Bind(env, name, v), other) == Lookup(env, other)
  {
  }

  /** `Printer`'s buffer: the entries added so far, oldest first. */
  type Buffer = seq<string>

  /** `Printer::add_output`: the text followed by a newline becomes the newest entry. */
  function AddOutput(out: Buffer, text: string): (r: Buffer)
    ensures |r| == |out| + 1 && r[..|out|] == out && r[|out|] == text + "\n"
  {
    out + [text + "\n"]
  }

  /** `Printer::to_string`: every entry, in order, so it opens with the oldest entry and
      closes with the newest. */
  function Render(out: Buffer): (r: string)
    ensures |out| == 0 ==> r == ""
    ensures |out| > 0 ==> |out[0]| <= |r| && r[..|out[0]|] == out[0]
    ensures |out| > 0 ==> |out[|out| - 1]| <= |r| && r[|r| - |out[|out| - 1]|..] == out[|out| - 1]
    decreases |out|
  {
    if |out| == 0 then "" else Render(out[..|out| - 1]) + out[|out| - 1]
  }

  /** Rendering after `add_output` extends the previous rendering by the new line alone. */
  lemma AddOutputExtendsRendering(out: Buffer, text: string)
    ensures Render(AddOutput(out, text)) == Render(out) + text + "\n"
  {
    assert AddOutput(out, text)[..|out|] == out;
  }

  /** Rendering a buffer that has grown keeps the old rendering as a prefix. */
  lemma {:induction false} RenderOfExtension(out: Buffer, more: Buffer)
    ensures Render(out + more) == Render(out) + Render(more)
    decreases |more|
  {
    if |more| > 0 {
      var last := |more| - 1;
      assert (out + more)[..|out + more| - 1] == out + more[..last];
      RenderOfExtension(out, more[..last]);
      assert (out + more)[|out + more| - 1] == more[last];
    } else {
      assert out + more == out;
    }
  }

  /** `Printer::clear_buffer`. */
  const Cleared: Buffer := []
}
