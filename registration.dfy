/** The registration state machine of updateDeviceRegistration, as a
    transition function of the device's role, its presence and its state. */
module Registration {
  import opened CanTypes

  /** The branch of updateDeviceRegistration that calls requestRegistration. */
  predicate Requests(p: Protocol, role: uint8, online: bool, s: RegistrationStatus) {
    role != p.readOnlyType && role != p.controllerType && s == Unregistered && online
  }

  /** One maintenance step. */
  function Step(p: Protocol, role: uint8, online: bool, s: RegistrationStatus): (r: RegistrationStatus)
    ensures r == Registered ==> s == Registered
    ensures r != s ==> role != p.readOnlyType
  {
    if role == p.readOnlyType then s
    else if role == p.controllerType then Registrar
    else if !online && (s == RegistrationPending || s == Registered) then Unregistered
    else if s == Unregistered && online then RegistrationPending
    else s
  }

  /** The role and presence cases of one step. */
  lemma StepCases(p: Protocol, role: uint8, online: bool, s: RegistrationStatus)
    ensures role == p.readOnlyType ==> Step(p, role, online, s) == s
    ensures role != p.readOnlyType && role == p.controllerType ==> Step(p, role, online, s) == Registrar
    ensures role != p.readOnlyType && role != p.controllerType && !online ==>
      Step(p, role, online, s) == if s == Registrar then Registrar else Unregistered
    ensures role != p.readOnlyType && role != p.controllerType && online ==>
      Step(p, role, online, s) == if s == Unregistered then RegistrationPending else s
    ensures Requests(p, role, online, s) <==>
      (s == Unregistered && Step(p, role, online, s) == RegistrationPending)
  {
  }

  /** Steps over a run of maintenance ticks, one presence value per tick. */
  function Run(p: Protocol, role: uint8, presence: seq<bool>, s: RegistrationStatus): RegistrationStatus
    decreases |presence|
  {
    if presence == [] then s else Run(p, role, presence[1..], Step(p, role, presence[0], s))
  }

  /** No sequence of ticks leads to REGISTERED: only a device already
      registered can be registered afterwards. */
  lemma {:induction false} RunNeverRegisters(p: Protocol, role: uint8, presence: seq<bool>, s: RegistrationStatus)
    requires s != Registered
    ensures Run(p, role, presence, s) != Registered
    decreases |presence|
  {
    if presence != [] {
      RunNeverRegisters(p, role, presence[1..], Step(p, role, presence[0], s));
    }
  }

  /** A controller is REGISTRAR after any non-empty run of ticks, whatever
      its presence. */
  lemma {:induction false} ControllerEndsRegistrar(p: Protocol, role: uint8, presence: seq<bool>, s: RegistrationStatus)
    requires role != p.readOnlyType && role == p.controllerType
    requires presence != []
    ensures Run(p, role, presence, s) == Registrar
    decreases |presence|
  {
    if |presence| > 1 {
      ControllerEndsRegistrar(p, role, presence[1..], Step(p, role, presence[0], s));
    }
  }

  /** A read-only device never changes its registration state. */
  lemma {:induction false} ReadOnlyKeepsStatus(p: Protocol, role: uint8, presence: seq<bool>, s: RegistrationStatus)
    requires role == p.readOnlyType
    ensures Run(p, role, presence, s) == s
    decreases |presence|
  {
    if presence != [] {
      ReadOnlyKeepsStatus(p, role, presence[1..], s);
    }
  }
}
