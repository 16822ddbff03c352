// Data types of the specialist dashboard: the record types of types.ts and the
// filter and counter shapes declared inline in App.tsx.
module Types {

  /** Lifecycle status of a specialist record; the enum has exactly these four values. */
  datatype Status = PENDING | CONTACTED | VERIFIED | REJECTED

  /** One registered specialist. `notes` is the ordered, append-only list of free-text notes. */
  datatype Specialist = Specialist(
    id: string,
    name: string,
    email: string,
    specialization: string,
    registrationDate: string,
    status: Status,
    bio: string,
    experienceYears: int,
    notes: seq<string>)

  /** The table filter, `SpecialistStatus | 'ALL'` in App.tsx: the sentinel 'ALL' or one status. */
  datatype Filter = All | Only(status: Status)

  /** The three counters shown on the stats cards, the object built by the `stats` memo in App.tsx. */
  datatype Stats = Stats(total: nat, pending: nat, verified: nat)
}
