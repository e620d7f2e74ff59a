/** Datatypes shared by every component of the model. */
module Common {

  datatype Option<+T> = None | Some(value: T) {
    function GetOr(default: T): T {
      match this
      case Some(v) => v
      case None => default
    }
  }

  type Time = nat

  /** A nullable text column: the empty string stands for "nothing". */
  function OrNone(s: string): Option<string> {
    if s == "" then None else Some(s)
  }

  function OrEmpty(o: Option<string>): string {
    o.GetOr("")
  }

  /** What survives a trip through a text column that stores "nothing" as the empty string. */
  function Stored(o: Option<string>): Option<string> {
    OrNone(OrEmpty(o))
  }

  lemma {:induction false} SubsetIsSmaller<T>(a: set<T>, b: set<T>)
    requires a <= b
    ensures |a| <= |b|
  {
    if a != {} {
      var x :| x in a;
      SubsetIsSmaller(a - {x}, b - {x});
    }
  }

  /** A text column loses nothing but the difference between an empty text and none. */
  lemma OnlyEmptyTextIsLost(a: Option<string>, b: Option<string>)
    ensures Stored(a) == Stored(b) <==> a == b || {a, b} == {None, Some("")}
    ensures a != Some("") ==> Stored(a) == a
  {
  }
}
