/** Shared vocabulary of the VidTube backend model: identifiers, the error a handler
    raises, results, and the natural (insertion) order of a table's keys. */
module Base {

  /** A MongoDB ObjectId. Ids are handed out in increasing order, so ascending id order
      stands for a collection's natural (insertion) order. */
  type Id = nat

  datatype Option<+T> = None | Some(value: T) {
    function GetOr(default: T): T {
      match this
      case Some(v) => v
      case None => default
    }
  }

  /** What a handler raises. `Fail` is an `apiError(status, message)`; `Thrown` is any other
      exception (a CastError from Mongoose, a TypeError, an apiError built without a numeric
      status), which Express turns into its default error response. */
  datatype ApiError = Fail(status: nat, message: string) | Thrown(cause: string)

  datatype Result<+T> = Ok(value: T) | Err(error: ApiError)

  /** An id as it arrives in a request: either a well-formed ObjectId (`isValidObjectId`
      holds) or malformed text. */
  datatype RawId = ObjectId(id: Id) | Malformed(text: string) {
    /** JavaScript truthiness of the raw string: only the empty string is falsy. */
    predicate Truthy() {
      !(Malformed? && text == "")
    }
  }

  /** The message Mongoose gives when `findById` is handed a malformed id. */
  const CastErrorMessage: string := "CastError: Cast to ObjectId failed"

  predicate IsLeast(m: nat, s: set<nat>) {
    m in s && forall x :: x in s ==> m <= x
  }

  lemma {:induction false} LeastExists(s: set<nat>)
    requires s != {}
    ensures exists m :: IsLeast(m, s)
  {
    var y :| y in s;
    if s == {y} {
      assert IsLeast(y, s);
    } else {
      var rest := s - {y};
      LeastExists(rest);
      var m :| IsLeast(m, rest);
      var b := if y < m then y else m;
      forall x | x in s ensures b <= x {
        if x != y { assert x in rest; }
      }
      assert IsLeast(b, s);
    }
  }

  /** The least element of a non-empty set of ids: the first document in natural order. */
  function Min(s: set<nat>): (m: nat)
    requires s != {}
    ensures IsLeast(m, s)
  {
    LeastExists(s);
    var m :| IsLeast(m, s); m
  }

  predicate StrictlyIncreasing(s: seq<nat>) {
    forall i, j :: 0 <= i < j < |s| ==> s[i] < s[j]
  }

  /** The keys of a table in natural order: every key exactly once, ascending. */
  function Ascending(keys: set<nat>): (r: seq<nat>)
    ensures |r| == |keys|
    ensures forall x :: x in r <==> x in keys
    ensures StrictlyIncreasing(r)
    decreases keys
  {
    if keys == {} then []
    else
      var m := Min(keys);
      var rest := Ascending(keys - {m});
      assert forall i :: 0 <= i < |rest| ==> m < rest[i] by {
        forall i | 0 <= i < |rest| ensures m < rest[i] {
          assert rest[i] in keys - {m};
        }
      }
      [m] + rest
  }
}
