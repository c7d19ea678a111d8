/** Return codes and optional values shared by every component of the model. */
module Common {

  datatype Option<+T> = None | Some(value: T)

  /** The error codes the modelled code branches on; every other code is `OtherError`. */
  datatype Code =
    | Success
    | Eagain
    | Timeout
    | OpNotAllow
    | Unexpected
    | InvalidArgument
    | NotSupported
    | NotInit
    | NotRunning
    | NotMaster
    | NotAllowRemovingLeader
    | FileLengthInvalid
    | SizeOverflow
    | AllocateFailed
    | LogOutOfDiskSpace
    | ServerIsStopping
    | InnerStatError
    | OtherError(errno: int)

  ghost predicate NoDup<T>(s: seq<T>) {
    forall i, j :: 0 <= i < j < |s| ==> s[i] != s[j]
  }

  function Elements<T(==)>(s: seq<T>): set<T> {
    set x | x in s
  }

  lemma {:induction false} ElementsSize<T>(s: seq<T>)
    requires NoDup(s)
    ensures |Elements(s)| == |s|
  {
    if s != [] {
      var front, last := s[..|s| - 1], s[|s| - 1];
      assert NoDup(front) && last !in front;
      ElementsSize(front);
      assert s == front + [last];
      assert Elements(s) == Elements(front) + {last};
    }
  }
}
