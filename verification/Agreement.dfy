/** The three implementations of the queue side by side: the driver's nonblocking path over the ring buffer, the
    byte-by-byte simulator, and the slicing reference model. */
module Agreement {
  import opened Contract
  import opened Backends
  import opened Device

  ghost predicate Alike(driver: Device, simulator: SimulatedDevice, reference: ReferenceModel, m: Model)
    reads driver, driver.buffer, driver.buffer.data, simulator, reference
  {
    && driver.Valid() && !driver.shuttingDown && simulator.fault == NoFault && m.Valid()
    && driver.Model() == m && simulator.State() == m && reference.State() == m
  }

  /** Run one operation list on all three, as `evaluate` does with a device and the model. */
  method Lockstep(driver: Device, simulator: SimulatedDevice, reference: ReferenceModel, operations: seq<Op>)
    returns (a: seq<Result>, b: seq<Result>, c: seq<Result>)
    requires Alike(driver, simulator, reference, reference.State())
    modifies driver.buffer, driver.buffer.data, driver`generation, simulator, reference
    ensures a == b == c == Answers(old(reference.State()), operations)
    ensures Alike(driver, simulator, reference, Final(old(reference.State()), operations))
  {
    hide Device.Model, Apply;
    ghost var m := reference.State();
    a, b, c := [], [], [];
    for i := 0 to |operations|
      invariant a == b == c == Answers(m, operations[..i])
      invariant Alike(driver, simulator, reference, Final(m, operations[..i]))
      invariant driver.buffer.data == old(driver.buffer.data) || fresh(driver.buffer.data)
    {
      assert operations[..i + 1] == operations[..i] + [operations[i]];
      OneMore(m, operations[..i], operations[i]);
      var ra := driver.NonblockingStep(operations[i]);
      var rb := simulator.Step(operations[i]);
      var rc := reference.Step(operations[i]);
      a, b, c := a + [ra], b + [rb], c + [rc];
    }
    assert operations[..|operations|] == operations;
  }
}
