/** The version gates of the client objects: which addressing a Service or a
    Component uses, whether an action run may carry `verbose`, and which
    servers the client accepts at all. Each gate compares the server's
    version with a fixed threshold; servers older than the threshold get the
    legacy behaviour. */
module Gates {
  import opened Values
  import opened Versions

  /** Services became a top-level collection at 2020.09.25.13. */
  const ServiceSince: Version := [2020, 9, 25, 13]
  /** Components became a top-level collection at 2021.03.12.16. */
  const ComponentSince: Version := [2021, 3, 12, 16]
  /** Action runs accept `verbose` from 2021.02.04.13 on. */
  const VerboseSince: Version := [2021, 2, 4, 13]
  /** The client supports servers strictly newer than 2019.02.20.00. */
  const MinVersion: Version := [2019, 2, 20, 0]
  const MinVersionText := "2019.02.20.00"

  /** The `PATH` an instance ends up with: `None` (addressed only as a
      subobject of its parent) on servers older than `since`, the class's
      own `PATH` otherwise. */
  function GatedPath(server: Version, since: Version, path: seq<string>): (r: Option<seq<string>>)
    ensures r.None? <==> Older(server, since)
    ensures r.Some? ==> r.value == path
  {
    if Compare(server, since) < 0 then None else Some(path)
  }

  /** `Service.__new__`. */
  function ServicePath(server: Version): (r: Option<seq<string>>)
    ensures r == None <==> Older(server, ServiceSince)
    ensures r != None ==> r == Some(["service"])
  {
    GatedPath(server, ServiceSince, ["service"])
  }

  /** `ServiceList.__new__`. */
  function ServiceListPath(server: Version): (r: Option<seq<string>>)
    ensures r == None <==> Older(server, ServiceSince)
    ensures r != None ==> r == Some(["service"])
  {
    GatedPath(server, ServiceSince, ["service"])
  }

  /** `Component.__new__`. */
  function ComponentPath(server: Version): (r: Option<seq<string>>)
    ensures r == None <==> Older(server, ComponentSince)
    ensures r != None ==> r == Some(["component"])
  {
    GatedPath(server, ComponentSince, ["component"])
  }

  /** `ComponentList.__new__`. */
  function ComponentListPath(server: Version): (r: Option<seq<string>>)
    ensures r == None <==> Older(server, ComponentSince)
    ensures r != None ==> r == Some(["component"])
  {
    GatedPath(server, ComponentSince, ["component"])
  }

  /** A gate is monotone: a server that is not newer than one that gets the
      legacy addressing gets the legacy addressing too. */
  lemma GatedPathMonotone(older: Version, newer: Version, since: Version, path: seq<string>)
    requires !Older(newer, older)
    requires GatedPath(newer, since, path).None?
    ensures GatedPath(older, since, path).None?
  {
    CompareAntisymmetric(older, newer);
    CompareZeroIffEqual(older, newer);
    if older != newer {
      OlderTransitive(older, newer, since);
    }
  }

  /** A server new enough to address components at the top level addresses
      services that way too: the component threshold is the later one. */
  lemma ComponentGateImpliesServiceGate(server: Version)
    requires ComponentPath(server).Some?
    ensures ServicePath(server).Some?
  {
    assert Older(ServiceSince, ComponentSince);
    if Older(server, ServiceSince) {
      OlderTransitive(server, ServiceSince, ComponentSince);
    }
  }

  /** The `verbose` handling of `Action.run`: servers from 2021.02.04.13 on
      get `verbose` (False unless the caller gave one); older servers never
      receive it. */
  function VerboseArgs(args: seq<Entry>, server: Version): (r: seq<Entry>)
    ensures !Older(server, VerboseSince) ==>
              Get(r, "verbose") == (if HasKey(args, "verbose") then Get(args, "verbose") else Some(Bool(false)))
    ensures Older(server, VerboseSince) ==> !HasKey(r, "verbose")
    ensures forall k :: k != "verbose" ==> Get(r, k) == Get(args, k)
    ensures Unique(args) ==> Unique(r)
  {
    if Compare(server, VerboseSince) >= 0 then
      if HasKey(args, "verbose") then args else Set(args, "verbose", Bool(false))
    else if HasKey(args, "verbose") then Remove(args, "verbose")
    else args
  }

  /** `ADCMClient._check_min_version`. */
  function CheckMinVersion(server: Version): (r: Result<()>)
    ensures r.Ok? <==> Older(MinVersion, server)
    ensures r.Err? ==> r.error == ADCMApiError("The client supports ADCM versions newer than '" + MinVersionText + "'")
  {
    if Compare(MinVersion, server) > -1 then
      Err(ADCMApiError("The client supports ADCM versions newer than '" + MinVersionText + "'"))
    else Ok(())
  }

  /** The accepted servers are closed upwards: a server not older than an
      accepted one is accepted. */
  lemma AcceptedServersUpwardClosed(accepted: Version, server: Version)
    requires CheckMinVersion(accepted).Ok?
    requires !Older(server, accepted)
    ensures CheckMinVersion(server).Ok?
  {
    CompareAntisymmetric(accepted, server);
    CompareZeroIffEqual(accepted, server);
    if accepted != server {
      OlderTransitive(MinVersion, accepted, server);
    }
  }

  /** The threshold itself is rejected: the check is strict. */
  lemma MinVersionRejected()
    ensures CheckMinVersion(MinVersion).Err?
  {
    CompareZeroIffEqual(MinVersion, MinVersion);
  }
}
