/** The admission counter of native_services.rs that all native desktop work shares. */
module WorkOwner {
  import opened Wrappers

  const MAX_NATIVE_WORK: nat := 4

  datatype State = State(closing: bool, active: nat)

  datatype WorkError = Disconnected | Backpressure

  predicate IsOpen(s: State) {
    !s.closing
  }

  function Admit(s: State, cleanup: bool): Result<State, WorkError> {
    if s.closing && !cleanup then Failure(Disconnected)
    else if s.active >= MAX_NATIVE_WORK then Failure(Backpressure)
    else Success(s.(active := s.active + 1))
  }

  function Release(s: State): State {
    s.(active := if s.active > 0 then s.active - 1 else 0)
  }

  class NativeWorkOwner {
    var closing: bool
    var active: nat

    function View(): State
      reads this
    {
      State(closing, active)
    }

    constructor ()
      ensures View() == State(false, 0)
    {
      closing, active := false, 0;
    }

    method Close()
      modifies this`closing
      ensures View() == old(View()).(closing := true)
    {
      closing := true;
    }

    method AssertOpen() returns (result: Result<(), WorkError>)
      ensures result == if IsOpen(View()) then Success(()) else Failure(Disconnected)
    {
      if closing {
        return Failure(Disconnected);
      }
      return Success(());
    }

    /** The lock section of `run_owned`; success is the receipt. */
    method AdmitWork(cleanup: bool) returns (result: Result<(), WorkError>)
      modifies this`active
      ensures result.Success? <==> Admit(old(View()), cleanup).Success?
      ensures result.Failure? ==> result.error == Admit(old(View()), cleanup).error && View() == old(View())
      ensures result.Success? ==> View() == Admit(old(View()), cleanup).value
    {
      if closing && !cleanup {
        return Failure(Disconnected);
      }
      if active >= MAX_NATIVE_WORK {
        return Failure(Backpressure);
      }
      active := active + 1;
      return Success(());
    }

    /** The counter part of a dropped receipt. */
    method DropReceipt()
      requires active > 0
      modifies this`active
      ensures View() == Release(old(View()))
    {
      active := active - 1;
    }
  }
}
