/**
 * The spooling side of `BRFTestFilterCB`: find the conversion for the
 * job's input format and build the filter chain that `cfFilterChain` runs,
 * the conversion's filters followed by the "Backend" stage that writes to
 * the device. Running the chain (pipes, processes) is not modelled; its
 * exit status is a parameter.
 */
module FilterChain {
  import opened Wrappers

  /** What a chain stage runs: an external CUPS filter program, or the built-in device writer. */
  datatype FilterFunction = ExternalFilter(program: string) | PrintToDevice

  /** A stage of the chain (`cf_filter_filter_in_chain_t`): its function and its label. */
  datatype FilterInChain = FilterInChain(filter: FilterFunction, name: string)

  /** A spooling conversion: source and destination MIME types and the filters between them. */
  datatype Conversion = Conversion(srcType: string, dstType: string, filters: seq<FilterInChain>)

  /** The external Braille filter the application installs. */
  const TextToBrf := FilterInChain(ExternalFilter("/usr/lib/cups/filter/texttobrf"), "texttobrf")

  /** The one conversion the callback puts in its catalog: PDF to paged BRF through texttobrf. */
  const PdfToBrf := Conversion("application/pdf", "application/vnd.cups-paged-brf", [TextToBrf])

  const SpoolingConversions: seq<Conversion> := [PdfToBrf]

  /** The stage appended at the end of every chain. */
  const Backend := FilterInChain(PrintToDevice, "Backend")

  /** Why the callback gave up before running a chain. */
  datatype SetupError = CannotOpenInput | NoPreFilter(format: string)

  /** The job's filter data once set up: the formats and the chain to run. */
  datatype FilterJob = FilterJob(contentType: string, finalContentType: string, chain: seq<FilterInChain>)

  /** Conversion `i` is the first whose source type is byte-equal to `format`. */
  predicate IsFirstFor(catalog: seq<Conversion>, format: string, i: nat)
  {
    i < |catalog| && catalog[i].srcType == format
    && forall j :: 0 <= j < i ==> catalog[j].srcType != format
  }

  /**
   * The conversion search: the first catalog entry whose source type equals
   * the job format (`strcmp`, so case matters), or none.
   */
  method FindConversion(catalog: seq<Conversion>, format: string) returns (r: Option<Conversion>)
    ensures r.None? <==> forall j :: 0 <= j < |catalog| ==> catalog[j].srcType != format
    ensures r.Some? ==> exists i: nat :: IsFirstFor(catalog, format, i) && r.value == catalog[i]
  {
    var i := 0;
    while i < |catalog|
      invariant 0 <= i <= |catalog|
      invariant forall j :: 0 <= j < i ==> catalog[j].srcType != format
    {
      if catalog[i].srcType == format {
        assert IsFirstFor(catalog, format, i);
        return Some(catalog[i]);
      }
      i := i + 1;
    }
    return None;
  }

  /** The number of stages that write to the device. */
  function DeviceStages(chain: seq<FilterInChain>): nat
  {
    if chain == [] then 0
    else DeviceStages(chain[..|chain| - 1]) + (if chain[|chain| - 1].filter.PrintToDevice? then 1 else 0)
  }

  /**
   * Building the chain by repeated `cupsArrayAdd`: the conversion's filters
   * in catalog order, then the "Backend" stage.
   */
  method BuildChain(conversion: Conversion) returns (chain: seq<FilterInChain>)
    ensures |chain| == |conversion.filters| + 1
    ensures forall k :: 0 <= k < |conversion.filters| ==> chain[k] == conversion.filters[k]
    ensures chain[|chain| - 1] == Backend
  {
    chain := [];
    for i := 0 to |conversion.filters|
      invariant chain == conversion.filters[..i]
    {
      chain := chain + [conversion.filters[i]];
    }
    chain := chain + [Backend];
  }

  /**
   * The chain holds exactly one device stage, the last one, when the
   * conversion's own filters do not write to the device.
   */
  lemma {:induction false} OneDeviceStage(filters: seq<FilterInChain>)
    requires forall k :: 0 <= k < |filters| ==> !filters[k].filter.PrintToDevice?
    ensures DeviceStages(filters + [Backend]) == 1
  {
    var chain := filters + [Backend];
    assert chain[..|chain| - 1] == filters;
    NoDeviceStage(filters);
  }

  lemma {:induction false} NoDeviceStage(filters: seq<FilterInChain>)
    requires forall k :: 0 <= k < |filters| ==> !filters[k].filter.PrintToDevice?
    ensures DeviceStages(filters) == 0
  {
    if filters != [] {
      var front := filters[..|filters| - 1];
      assert forall k :: 0 <= k < |front| ==> front[k] == filters[k];
      NoDeviceStage(front);
    }
  }

  /**
   * `BRFTestFilterCB` from opening the job file to the chain's result:
   * an unopenable file or a format without a conversion fails before any
   * chain exists; otherwise the job's formats become the conversion's and
   * the callback succeeds exactly when `cfFilterChain` returns 0.
   */
  method TestFilterCB(catalog: seq<Conversion>, format: string, inputOpens: bool, chainStatus: int)
    returns (ok: bool, setup: Result<FilterJob, SetupError>)
    ensures !inputOpens ==> !ok && setup == Failure(CannotOpenInput)
    ensures inputOpens && (forall j :: 0 <= j < |catalog| ==> catalog[j].srcType != format) ==>
      !ok && setup == Failure(NoPreFilter(format))
    ensures setup.Success? ==> ok == (chainStatus == 0)
    ensures setup.Success? ==> exists i: nat ::
      && IsFirstFor(catalog, format, i)
      && setup.value.contentType == format
      && setup.value.finalContentType == catalog[i].dstType
      && setup.value.chain == catalog[i].filters + [Backend]
    ensures inputOpens && (exists j :: 0 <= j < |catalog| && catalog[j].srcType == format) ==> setup.Success?
  {
    if !inputOpens {
      return false, Failure(CannotOpenInput);
    }
    var conversion := FindConversion(catalog, format);
    if conversion.None? {
      return false, Failure(NoPreFilter(format));
    }
    var chain := BuildChain(conversion.value);
    assert chain == conversion.value.filters + [Backend];
    setup := Success(FilterJob(conversion.value.srcType, conversion.value.dstType, chain));
    ok := chainStatus == 0;
  }

  /**
   * With the application's catalog, a PDF job gets the two-stage chain
   * texttobrf then Backend, targeting paged BRF.
   */
  method PdfJobSetup(chainStatus: int) returns (ok: bool, setup: Result<FilterJob, SetupError>)
    ensures setup == Success(FilterJob("application/pdf", "application/vnd.cups-paged-brf", [TextToBrf, Backend]))
    ensures ok == (chainStatus == 0)
  {
    assert IsFirstFor(SpoolingConversions, "application/pdf", 0);
    ok, setup := TestFilterCB(SpoolingConversions, "application/pdf", true, chainStatus);
    ghost var i: nat :| IsFirstFor(SpoolingConversions, "application/pdf", i)
      && setup.value.chain == SpoolingConversions[i].filters + [Backend]
      && setup.value.finalContentType == SpoolingConversions[i].dstType;
    assert i == 0;
    assert setup.value.chain == [TextToBrf, Backend];
  }

  /** With the application's catalog, a plain-text job has no conversion. */
  method TextJobSetup(chainStatus: int) returns (ok: bool, setup: Result<FilterJob, SetupError>)
    ensures !ok && setup == Failure(NoPreFilter("text/plain"))
  {
    assert "application/pdf" != "text/plain";
    ok, setup := TestFilterCB(SpoolingConversions, "text/plain", true, chainStatus);
  }
}
