/** The CTRF environment: up to seven optional strings, merged from the
    configuration by `setEnvironmentDetails` and tested by `hasEnvironmentDetails`. */
module Environments {
  import opened Wrappers
  import opened Options

  /** `CtrfEnvironment`: a property that was never assigned is `None`. */
  datatype CtrfEnvironment = CtrfEnvironment(
    appName: Option<string>,
    appVersion: Option<string>,
    osPlatform: Option<string>,
    osRelease: Option<string>,
    osVersion: Option<string>,
    buildName: Option<string>,
    buildNumber: Option<string>)

  /** `{}` */
  const EmptyEnvironment := CtrfEnvironment(None, None, None, None, None, None, None)

  /** The names of the seven properties, so that they can be quantified over. */
  datatype EnvField = AppName | AppVersion | OsPlatform | OsRelease | OsVersion | BuildName | BuildNumber

  const AllFields: seq<EnvField> := [AppName, AppVersion, OsPlatform, OsRelease, OsVersion, BuildName, BuildNumber]

  function Get(e: CtrfEnvironment, f: EnvField): Option<string> {
    match f
    case AppName => e.appName
    case AppVersion => e.appVersion
    case OsPlatform => e.osPlatform
    case OsRelease => e.osRelease
    case OsVersion => e.osVersion
    case BuildName => e.buildName
    case BuildNumber => e.buildNumber
  }

  /** The configuration option that feeds each property. */
  function OptionFor(o: ReporterConfigOptions, f: EnvField): Option<string> {
    match f
    case AppName => o.appName
    case AppVersion => o.appVersion
    case OsPlatform => o.osPlatform
    case OsRelease => o.osRelease
    case OsVersion => o.osVersion
    case BuildName => o.buildName
    case BuildNumber => o.buildNumber
  }

  /** The state of `ctrfEnvironment` after `setEnvironmentDetails(o)`: every
      defined option overwrites its property, every other property is left as it was. */
  function MergeEnvironment(e: CtrfEnvironment, o: ReporterConfigOptions): (r: CtrfEnvironment)
    ensures forall f :: OptionFor(o, f).Some? ==> Get(r, f) == OptionFor(o, f)
    ensures forall f :: OptionFor(o, f).None? ==> Get(r, f) == Get(e, f)
  {
    CtrfEnvironment(
      if o.appName.Some? then o.appName else e.appName,
      if o.appVersion.Some? then o.appVersion else e.appVersion,
      if o.osPlatform.Some? then o.osPlatform else e.osPlatform,
      if o.osRelease.Some? then o.osRelease else e.osRelease,
      if o.osVersion.Some? then o.osVersion else e.osVersion,
      if o.buildName.Some? then o.buildName else e.buildName,
      if o.buildNumber.Some? then o.buildNumber else e.buildNumber)
  }

  /** `Object.keys(environment)`, in declaration order. */
  function PresentFields(e: CtrfEnvironment): (fs: seq<EnvField>)
    ensures forall f :: f in fs <==> Get(e, f).Some?
  {
    AllFieldsListed();
    Filter(AllFields, e)
  }

  lemma AllFieldsListed()
    ensures forall f :: f in AllFields
  {
    forall f ensures f in AllFields {
      match f
      case AppName => assert AllFields[0] == f;
      case AppVersion => assert AllFields[1] == f;
      case OsPlatform => assert AllFields[2] == f;
      case OsRelease => assert AllFields[3] == f;
      case OsVersion => assert AllFields[4] == f;
      case BuildName => assert AllFields[5] == f;
      case BuildNumber => assert AllFields[6] == f;
    }
  }

  /** The names in `fs` whose property is assigned, in order. */
  function Filter(fs: seq<EnvField>, e: CtrfEnvironment): (r: seq<EnvField>)
    ensures forall f :: f in r <==> f in fs && Get(e, f).Some?
  {
    if |fs| == 0 then []
    else (if Get(e, fs[0]).Some? then [fs[0]] else []) + Filter(fs[1..], e)
  }

  /** `hasEnvironmentDetails`: `Object.keys(environment).length > 0`. */
  function HasEnvironmentDetails(e: CtrfEnvironment): (b: bool)
    ensures b <==> exists f :: Get(e, f).Some?
  {
    var keys := PresentFields(e);
    assert |keys| > 0 ==> keys[0] in keys;
    |keys| > 0
  }

  /** Merging the same options a second time changes nothing. */
  lemma MergeIdempotent(e: CtrfEnvironment, o: ReporterConfigOptions)
    ensures MergeEnvironment(MergeEnvironment(e, o), o) == MergeEnvironment(e, o)
  {
  }

  /** Starting from `{}`, a property is present iff its option was supplied,
      and the environment is non-empty iff at least one option was. */
  lemma MergeIntoEmpty(o: ReporterConfigOptions)
    ensures forall f :: Get(MergeEnvironment(EmptyEnvironment, o), f) == OptionFor(o, f)
    ensures HasEnvironmentDetails(MergeEnvironment(EmptyEnvironment, o)) <==> exists f :: OptionFor(o, f).Some?
  {
    var r := MergeEnvironment(EmptyEnvironment, o);
    forall f ensures Get(r, f) == OptionFor(o, f) {
      if OptionFor(o, f).None? {
        assert Get(EmptyEnvironment, f) == None;
      }
    }
  }

  /** Merging never removes a property, so a non-empty environment stays non-empty. */
  lemma MergeKeepsDetails(e: CtrfEnvironment, o: ReporterConfigOptions)
    requires HasEnvironmentDetails(e)
    ensures HasEnvironmentDetails(MergeEnvironment(e, o))
  {
    var f :| Get(e, f).Some?;
    assert Get(MergeEnvironment(e, o), f).Some?;
  }

  /** `{}` has no keys. */
  lemma EmptyHasNoDetails()
    ensures !HasEnvironmentDetails(EmptyEnvironment)
  {
    forall f ensures Get(EmptyEnvironment, f).None? {
      match f
      case AppName =>
      case AppVersion =>
      case OsPlatform =>
      case OsRelease =>
      case OsVersion =>
      case BuildName =>
      case BuildNumber =>
    }
  }
}
