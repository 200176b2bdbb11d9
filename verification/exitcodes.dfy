/** The exit codes of the processors. */
module ExitCodes {
  const Success: int := 0
  const FailureArgumentError: int := 128
  const FailureAssertion: int := 129
  const FailureKeyboardInterrupt: int := 130
  const FailureMemoryError: int := 131
  const FailureOsError: int := 132
  const FailureRuntimeError: int := 133
  const FailureSystemError: int := 134
  const FailureSystemExit: int := 135
  const FailureUnspecific: int := 255

  /** The failure codes, in the order they are declared. */
  const Failures: seq<int> := [FailureArgumentError, FailureAssertion, FailureKeyboardInterrupt,
                               FailureMemoryError, FailureOsError, FailureRuntimeError,
                               FailureSystemError, FailureSystemExit, FailureUnspecific]

  /** The failure codes are pairwise distinct and none is the success code;
      all but the last are consecutive from 128, and the last is 255. */
  lemma CodesAreDistinct()
    ensures forall i, j :: 0 <= i < j < |Failures| ==> Failures[i] != Failures[j]
    ensures forall i :: 0 <= i < |Failures| ==> Failures[i] != Success && Failures[i] > 0
    ensures forall i :: 0 <= i < |Failures| - 1 ==> Failures[i] == 128 + i
    ensures Failures[|Failures| - 1] == 255
  {
  }
}
