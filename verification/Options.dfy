/** Optional fields with a "changed" flag, as every parameter and type definition keeps them,
    and what writing one such field puts on the wire. */
module Options {
  import opened Bytes
  import opened Streams

  // A field: whether it is set, its stored value, whether it changed since the last flush.
  datatype Opt<T> = Opt(has: bool, value: T, changed: bool)

  function Fresh<T>(value: T): (r: Opt<T>) { Opt(false, value, false) }

  // The setters: an equal stored value raises no flag.
  function Assign<T(==)>(o: Opt<T>, value: T): (r: Opt<T>)
    ensures r.has && r.value == value
  {
    if o.value == value then o.(has := true) else Opt(true, value, true)
  }

  // What a setter leaves: the value is there, and flagged if the one before was another.
  predicate Stored<T(==)>(before: Opt<T>, value: T, after: Opt<T>) {
    after.has && after.value == value && (after.changed <==> before.changed || before.value != value)
  }

  lemma StoredIsAssigned<T>(before: Opt<T>, value: T, after: Opt<T>)
    ensures Stored(before, value, after) <==> after == Assign(before, value)
  {
  }

  // The clear functions: the stored value stays behind.
  function Clear<T>(o: Opt<T>): (r: Opt<T>) { o.(has := false, changed := true) }

  // What the parsers do with a value read.
  function Place<T>(o: Opt<T>, value: T): (r: Opt<T>) { o.(has := true, value := value) }

  // The octets written for a field: nothing, its tag and value, or its tag and the cleared form.
  function Emit<T>(o: Opt<T>, all: bool, tag: Byte, value: Text, cleared: Text): (r: Text) {
    if o.has then (if all || o.changed then [tag] + value else [])
    else if o.changed then [tag] + cleared else []
  }

  // The field after it was written: a full write keeps the flag of a set field.
  function Flushed<T>(o: Opt<T>, all: bool): (r: Opt<T>) {
    if o.has && all then o else o.(changed := false)
  }

  // The value the other side learns.
  function Sent<T>(o: Opt<T>, all: bool, cleared: T): (r: Option<T>) {
    if o.has then (if all || o.changed then Some(o.value) else None)
    else if o.changed then Some(cleared) else None
  }

  function Received<T>(base: Opt<T>, sent: Option<T>): (r: Opt<T>) {
    if sent.Some? then Place(base, sent.value) else base
  }

  // A field only ever touched by its setter.
  predicate SetterOnly<T(==)>(o: Opt<T>, initial: T) { !o.has ==> o == Fresh(initial) }

  method WriteOption<T>(out: Writer, o: Opt<T>, all: bool, tag: Byte, value: Text, cleared: Text) returns (o': Opt<T>)
    modifies out
    ensures out.buffer == old(out.buffer) + Emit(o, all, tag, value, cleared)
    ensures o' == Flushed(o, all)
  {
    o' := o;
    ghost var start := out.buffer;
    if o.has {
      if all || o.changed {
        out.Write(tag);
        out.WriteText(value);
        if !all {
          o' := o'.(changed := false);
        }
      }
    } else if o.changed {
      out.Write(tag);
      out.WriteText(cleared);
      o' := o'.(changed := false);
    }
    assert out.buffer == start + Emit(o, all, tag, value, cleared);
  }
}
