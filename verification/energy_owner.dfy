/**
 The shared part of the energy owner of native_energy.rs: the admission of acquisitions and
 the coalesced release driver, both decided under the release lock.
 */
module EnergyOwner {
  import opened Wrappers

  /** A watch channel for the driver that was started at generation `driver`; no result while it runs. */
  datatype Receiver = Receiver(driver: nat, result: Option<bool>)

  datatype Owner = Owner(generation: nat, closing: bool, acquiring: bool, pending: nat, slot: Option<Receiver>)

  datatype AdmitError = Disconnected | Backpressure

  const NEW_OWNER := Owner(0, false, false, 0, None)

  /** The last release, if there was one, has succeeded. */
  predicate Settled(o: Owner) {
    o.slot.None? || o.slot.value.result == Some(true)
  }

  function Admit(o: Owner): Result<Owner, AdmitError> {
    if o.closing then Failure(Disconnected)
    else if !Settled(o) || o.acquiring then Failure(Backpressure)
    else Success(o.(acquiring := true, pending := o.pending + 1))
  }

  /** The slot already answers a release request: its driver runs, or the closed owner is released for good. */
  predicate Answered(o: Owner) {
    o.slot.Some? && (o.slot.value.result.None? || (o.closing && o.slot.value.result == Some(true)))
  }

  function BeginRelease(o: Owner, permanent: bool): Owner {
    var p := o.(closing := o.closing || permanent);
    if Answered(o) then p
    else p.(generation := o.generation + 1, slot := Some(Receiver(o.generation + 1, None)))
  }

  /** The two stores of a dropped acquisition. */
  function Unflag(o: Owner): Owner {
    o.(acquiring := false)
  }

  function Settle(o: Owner): Owner {
    o.(pending := if o.pending > 0 then o.pending - 1 else 0)
  }

  /** A driver reports on its own channel. */
  function Report(o: Owner, driver: nat, ok: bool): Owner {
    if o.slot.Some? && o.slot.value.driver == driver then o.(slot := Some(Receiver(driver, Some(ok)))) else o
  }

  class Watch {
    const driver: nat
    var result: Option<bool>

    constructor (driver: nat)
      ensures this.driver == driver && result == None
    {
      this.driver := driver;
      result := None;
    }

    method Send(ok: bool)
      modifies this
      ensures result == Some(ok)
    {
      result := Some(ok);
    }
  }

  class NativeEnergyOwner {
    var generation: nat
    var closing: bool
    var acquiring: bool
    var pending: nat
    var release: Watch?

    ghost function View(): Owner
      reads this, release
    {
      Owner(generation, closing, acquiring, pending,
            if release == null then None else Some(Receiver(release.driver, release.result)))
    }

    constructor ()
      ensures View() == NEW_OWNER
    {
      generation, closing, acquiring, pending, release := 0, false, false, 0, null;
    }

    /** The lock section of `set_active`; the result is the generation the acquisition belongs to. */
    method AdmitAcquisition() returns (result: Result<nat, AdmitError>)
      modifies this`acquiring, this`pending
      ensures result.Success? <==> Admit(old(View())).Success?
      ensures result.Success? ==> result.value == old(generation)
      ensures result.Failure? ==> result.error == Admit(old(View())).error
      ensures View() == if result.Success? then Admit(old(View())).value else old(View())
    {
      if closing {
        return Failure(Disconnected);
      }
      if release != null && (release.result.None? || !release.result.value) {
        return Failure(Backpressure);
      }
      if acquiring {
        return Failure(Backpressure);
      }
      acquiring := true;
      pending := pending + 1;
      return Success(generation);
    }

    /** `begin_release`: the channel to wait on, and whether a new driver has to run for it. */
    method StartRelease(permanent: bool) returns (watch: Watch, started: bool)
      modifies this`closing, this`generation, this`release
      ensures View() == BeginRelease(old(View()), permanent) && release == watch
      ensures started <==> !Answered(old(View()))
      ensures started ==> fresh(watch)
      ensures !started ==> watch == old(release)
    {
      var wasClosed := closing;
      if permanent {
        closing := true;
      }
      if release != null {
        var running := release.result.None?;
        var complete := release.result.Some? && release.result.value;
        if running || (wasClosed && complete) {
          return release, false;
        }
      }
      generation := generation + 1;
      watch := new Watch(generation);
      release := watch;
      started := true;
    }

    /** The end of a driver; its receivers, and through the slot the owner, see the result. */
    method ReportDriver(watch: Watch, ok: bool)
      requires release != null && release.driver == watch.driver ==> release == watch
      modifies watch
      ensures View() == Report(old(View()), watch.driver, ok) && watch.result == Some(ok)
    {
      watch.Send(ok);
    }

    /** Dropping an `Acquisition`: two atomic stores, between which another task may run. */
    method DropAcquiring()
      modifies this`acquiring
      ensures View() == Unflag(old(View()))
    {
      acquiring := false;
    }

    method DropPending()
      requires pending > 0
      modifies this`pending
      ensures View() == Settle(old(View()))
    {
      pending := pending - 1;
    }
  }
}
