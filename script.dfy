/** Scripts: the "programs" an actor submits to its runtime. A script is a
    constant pool of six typed tables plus a sequence of ops run in order. */
module Script {
  import opened Wrappers
  import opened Values
  import Template

  /** A VM function (`() => Op[]`), known by its index in a function table. */
  type FunctionRef = nat

  /** A foreign (host) function, known by an identifier. */
  type ForeignRef = nat

  /** The values the VM works with: the five constant kinds of the value
      type, plus foreign functions. */
  datatype Value =
    | Num(n: int)
    | Str(s: string)
    | Fun(f: FunctionRef)
    | Tmpl(t: Template.Template)
    | Msg(m: Message)
    | Foreign(g: ForeignRef)

  /** The constant pool, a 6-tuple in fixed order. */
  datatype Constants = Constants(
    numbers: seq<int>,
    strings: seq<string>,
    functions: seq<FunctionRef>,
    templates: seq<Template.Template>,
    messages: seq<Message>,
    foreigns: seq<ForeignRef>)

  /** Type-table indices of the constant pool. */
  const TABLE_NUMBERS: nat := 0
  const TABLE_STRINGS: nat := 1
  const TABLE_FUNCTIONS: nat := 2
  const TABLE_TEMPLATES: nat := 3
  const TABLE_MESSAGES: nat := 4
  const TABLE_FOREIGNS: nat := 5

  /** The ops of the resident scripts, plus the unconditional `Jump` and
      the recording `Int` op of the runtime's jump test and the counting
      ops of the runtime's actor ops. Jump targets are absolute indices. */
  datatype Op =
    | PushNum(idx: nat)
    | PushStr(idx: nat)
    | PushMsg(idx: nat)
    | PushForeign(idx: nat)
    | Tell
    | Read
    | Receive
    | Discard
    | JumpIfOne(target: nat)
    | Jump(target: nat)
    | MailCount
    | RecvCount
    | Int
    | Noop

  /** A script: its constants and its code. */
  datatype Script = Script(constants: Constants, code: seq<Op>)

  /** Table `t` of the pool (0 numbers, 1 strings, 2 functions, 3 templates,
      4 messages, 5 foreigns), each entry as a VM value. */
  function Table(c: Constants, t: nat): (r: seq<Value>)
    requires t < 6
    ensures t == TABLE_NUMBERS ==> |r| == |c.numbers| && forall i :: 0 <= i < |r| ==> r[i] == Num(c.numbers[i])
    ensures t == TABLE_STRINGS ==> |r| == |c.strings| && forall i :: 0 <= i < |r| ==> r[i] == Str(c.strings[i])
    ensures t == TABLE_FUNCTIONS ==> |r| == |c.functions| && forall i :: 0 <= i < |r| ==> r[i] == Fun(c.functions[i])
    ensures t == TABLE_TEMPLATES ==> |r| == |c.templates| && forall i :: 0 <= i < |r| ==> r[i] == Tmpl(c.templates[i])
    ensures t == TABLE_MESSAGES ==> |r| == |c.messages| && forall i :: 0 <= i < |r| ==> r[i] == Msg(c.messages[i])
    ensures t == TABLE_FOREIGNS ==> |r| == |c.foreigns| && forall i :: 0 <= i < |r| ==> r[i] == Foreign(c.foreigns[i])
  {
    if t == TABLE_NUMBERS then seq(|c.numbers|, i requires 0 <= i < |c.numbers| => Num(c.numbers[i]))
    else if t == TABLE_STRINGS then seq(|c.strings|, i requires 0 <= i < |c.strings| => Str(c.strings[i]))
    else if t == TABLE_FUNCTIONS then seq(|c.functions|, i requires 0 <= i < |c.functions| => Fun(c.functions[i]))
    else if t == TABLE_TEMPLATES then seq(|c.templates|, i requires 0 <= i < |c.templates| => Tmpl(c.templates[i]))
    else if t == TABLE_MESSAGES then seq(|c.messages|, i requires 0 <= i < |c.messages| => Msg(c.messages[i]))
    else seq(|c.foreigns|, i requires 0 <= i < |c.foreigns| => Foreign(c.foreigns[i]))
  }

  /** A constant is addressed by its type-table index, then by its index in
      that table: it is found iff the type index is one of the six and the
      inner index lies within that table, and it is then that table's entry. */
  function Lookup(c: Constants, t: nat, i: nat): (r: Option<Value>)
    ensures r.Some? <==> t < 6 && i < |Table(c, t)|
    ensures r.Some? ==> r.value == Table(c, t)[i]
  {
    if t == TABLE_NUMBERS then (if i < |c.numbers| then Some(Num(c.numbers[i])) else None)
    else if t == TABLE_STRINGS then (if i < |c.strings| then Some(Str(c.strings[i])) else None)
    else if t == TABLE_FUNCTIONS then (if i < |c.functions| then Some(Fun(c.functions[i])) else None)
    else if t == TABLE_TEMPLATES then (if i < |c.templates| then Some(Tmpl(c.templates[i])) else None)
    else if t == TABLE_MESSAGES then (if i < |c.messages| then Some(Msg(c.messages[i])) else None)
    else if t == TABLE_FOREIGNS then (if i < |c.foreigns| then Some(Foreign(c.foreigns[i])) else None)
    else None
  }

  /** The default script: six empty tables and no code. */
  function DefaultScript(): (s: Script)
    ensures s.code == []
    ensures forall t: nat, i: nat :: Lookup(s.constants, t, i).None?
  {
    Script(Constants([], [], [], [], [], []), [])
  }
}
