/**
 * psjson.py, the two ends of a JSON text sequence with the JSON library between them.
 * The parser loads through json_load, which scrubs the members named with a '#'.
 */
module JsonStream {
  import opened JsonDecomment
  import opened Json
  import opened Rfc7464
  import opened Wrappers

  /** The library's dumps() and loads(); loading may raise. */
  type Dumper = Value -> string
  type Loader = string -> Option<Value>

  /** RFC7464Emitter.__call__ on each value in turn. */
  function Dumped(values: seq<Value>, dump: Dumper): (r: seq<string>)
    ensures |r| == |values| && forall i :: 0 <= i < |r| ==> r[i] == dump(values[i])
  {
    seq(|values|, i requires 0 <= i < |values| => dump(values[i]))
  }

  /** RFC7464Parser.__next__: a value, or None where it raises. */
  function Received(item: Item, load: Loader): Option<Value>
    requires !item.End?
  {
    if item.Bad? || load(item.text).None? then None
    else Some(Decomment(load(item.text).value, "#", false))
  }

  /** The library reads this value back from what it wrote of it, the newlines it put in removed or not. */
  predicate ReadsBack(v: Value, dump: Dumper, load: Loader)
  {
    load(Flat(dump(v)) + "\n") == Some(v)
  }

  /**
   * Every value the library reads back arrives, in its place, without its '#' members;
   * it arrives as sent exactly if it had none.
   */
  lemma ValuesArrive(values: seq<Value>, dump: Dumper, load: Loader, i: nat)
    requires i < |values| && ReadsBack(values[i], dump, load)
    ensures var items := Items(Frames(Dumped(values, dump)));
            && |items| == |values| && !items[i].End?
            && Received(items[i], load) == Some(Decomment(values[i], "#", false))
            && (Received(items[i], load) == Some(values[i]) <==> Clean(values[i], "#"))
  {
    RoundTrip(Dumped(values, dump));
    DeletesAll(values[i], "#");
  }
}
