/**
 * ResultMapper: fanning a bulk creation request out into one Result per rule outcome
 * (toResults), and the destination URL the shown and CSV views of a Result carry.
 * A Java reference that may be null is an Option; MapStruct's generated copies between a DTO and
 * an entity with the same fields are the identity on those fields, so the DTO and the entity
 * share one datatype.
 */
module ResultMapper {

  import opened Wrappers
  import opened UriSyntax
  import opened UriResolution
  import opened UrlResolver

  /** A public administration, as in the IPA registry (Company / CompanyShowDto). */
  datatype Company = Company(
    idIpa: Option<int>,
    codiceIpa: Option<string>,
    denominazioneEnte: Option<string>,
    codiceFiscaleEnte: Option<string>,
    tipologia: Option<string>,
    codiceCategoria: Option<string>,
    codiceNatura: Option<string>,
    acronimo: Option<string>,
    sitoIstituzionale: Option<string>,
    sorgente: Option<string>)

  /** Where the crawler stored the page and its screenshot (StorageData / StorageDataShowDto). */
  datatype StorageData = StorageData(
    objectBucket: Option<string>,
    objectId: Option<string>,
    objectResult: Option<string>,
    screenshotBucket: Option<string>,
    screenshotId: Option<string>,
    screenshotResult: Option<string>)

  /** The outcome of one rule on a page (ResultRuleCreateDto); score is a BigDecimal. */
  datatype ResultRuleCreateDto = ResultRuleCreateDto(
    url: Option<string>,
    ruleName: Option<string>,
    term: Option<string>,
    content: Option<string>,
    isLeaf: bool,
    status: Option<int>,
    score: Option<real>,
    where: Option<string>)

  /** One crawled page with the outcomes of all rules on it (ResultBulkCreateDto). */
  datatype ResultBulkCreateDto = ResultBulkCreateDto(
    company: Option<Company>,
    realUrl: Option<string>,
    storageData: Option<StorageData>,
    workflowId: Option<string>,
    workflowChildId: Option<string>,
    errorMessage: Option<string>,
    length: Option<int>,
    resultRuleCreateDtos: seq<ResultRuleCreateDto>)

  /** The Result entity before it is saved: realUrl is the page, url the link a rule found on it. */
  datatype Result = Result(
    company: Option<Company>,
    realUrl: Option<string>,
    storageData: Option<StorageData>,
    url: Option<string>,
    ruleName: Option<string>,
    term: Option<string>,
    content: Option<string>,
    isLeaf: bool,
    status: Option<int>,
    score: Option<real>,
    workflowId: Option<string>,
    workflowChildId: Option<string>,
    errorMessage: Option<string>,
    length: Option<int>,
    where: Option<string>)

  /** convert(ResultRuleCreateDto): a new Result holding the rule's fields, all others null. */
  function Convert(rule: ResultRuleCreateDto): Result {
    Result(None, None, None, rule.url, rule.ruleName, rule.term, rule.content, rule.isLeaf,
           rule.status, rule.score, None, None, None, None, rule.where)
  }

  /** The fields a Result takes from its rule outcome. */
  predicate FromRule(result: Result, rule: ResultRuleCreateDto) {
    && result.url == rule.url
    && result.ruleName == rule.ruleName
    && result.term == rule.term
    && result.content == rule.content
    && result.isLeaf == rule.isLeaf
    && result.status == rule.status
    && result.score == rule.score
    && result.where == rule.where
  }

  /** The fields a Result takes from the page it was found on. */
  predicate FromPage(result: Result, bulk: ResultBulkCreateDto) {
    && result.realUrl == bulk.realUrl
    && result.company == bulk.company
    && result.storageData == bulk.storageData
    && result.workflowId == bulk.workflowId
    && result.workflowChildId == bulk.workflowChildId
    && result.errorMessage == bulk.errorMessage
    && result.length == bulk.length
  }

  /** The two groups of fields cover the whole Result: together they determine it. */
  lemma FieldsDetermineResult(r1: Result, r2: Result, rule: ResultRuleCreateDto, bulk: ResultBulkCreateDto)
    requires FromRule(r1, rule) && FromPage(r1, bulk)
    requires FromRule(r2, rule) && FromPage(r2, bulk)
    ensures r1 == r2
  {
  }

  /** toResults: an empty list for a null request, otherwise one Result per rule outcome, in
      order, each completed by the setters with the page's fields. */
  method ToResults(bulk: Option<ResultBulkCreateDto>) returns (results: seq<Result>)
    ensures bulk.None? ==> results == []
    ensures bulk.Some? ==> |results| == |bulk.value.resultRuleCreateDtos|
    ensures bulk.Some? ==> forall i :: 0 <= i < |results| ==>
      FromRule(results[i], bulk.value.resultRuleCreateDtos[i]) && FromPage(results[i], bulk.value)
  {
    results := [];
    if bulk.Some? {
      var rbcd := bulk.value;
      var rules := rbcd.resultRuleCreateDtos;
      var i := 0;
      while i < |rules|
        invariant 0 <= i <= |rules|
        invariant |results| == i
        invariant forall k :: 0 <= k < i ==> FromRule(results[k], rules[k]) && FromPage(results[k], rbcd)
      {
        var result := Convert(rules[i]);
        result := result.(realUrl := rbcd.realUrl);
        result := result.(company := rbcd.company);
        result := result.(storageData := rbcd.storageData);
        result := result.(workflowId := rbcd.workflowId);
        result := result.(workflowChildId := rbcd.workflowChildId);
        result := result.(errorMessage := rbcd.errorMessage);
        result := result.(length := rbcd.length);
        results := results + [result];
        i := i + 1;
      }
    }
  }

  /** All Results of one request agree on the page's fields, whatever their rule outcomes held. */
  lemma {:induction false} PageFieldsShared(bulk: ResultBulkCreateDto, results: seq<Result>, i: nat, j: nat)
    requires |results| == |bulk.resultRuleCreateDtos|
    requires forall k :: 0 <= k < |results| ==> FromPage(results[k], bulk)
    requires i < |results| && j < |results|
    ensures results[i].company == results[j].company
    ensures results[i].storageData == results[j].storageData
    ensures results[i].realUrl == results[j].realUrl
  {
    assert FromPage(results[i], bulk) && FromPage(results[j], bulk);
  }

  // ---------------------------------------------------------------------------------------
  // The destinationUrl of the shown and the CSV views
  // ---------------------------------------------------------------------------------------

  /** ResultShowDto: the copied fields of the Result and the computed destination (empty when
      the link cannot be resolved). */
  datatype ResultShowDto = ResultShowDto(result: Result, destinationUrl: Option<string>)

  /** ResultCsvDto: the copied fields of the Result and the destination as a nullable string. */
  datatype ResultCsvDto = ResultCsvDto(result: Result, destinationUrl: Option<string>)

  /** The link as written on the page, resolved against the page. */
  function Destination(result: Result): (d: Option<string>)
    ensures d.Some? ==> result.url.Some? && IsAbsolute(d.value) && NormalizeString(d.value) == d.value
    ensures result.url.Some? && IsUriReference(result.url.value) && IsAbsolute(result.url.value)
      ==> d == Some(NormalizeString(result.url.value))
  {
    GetDestinationUrl(result.realUrl, result.url)
  }

  /** convert(Result). */
  function ToShowDto(result: Result): (d: ResultShowDto)
    ensures d.result == result
  {
    ResultShowDto(result, Destination(result))
  }

  /** convert(List<Result>): the element-wise conversion, in order. */
  function ToShowDtos(results: seq<Result>): (ds: seq<ResultShowDto>)
    ensures |ds| == |results|
    ensures forall i :: 0 <= i < |ds| ==> ds[i] == ToShowDto(results[i])
  {
    if results == [] then [] else [ToShowDto(results[0])] + ToShowDtos(results[1..])
  }

  /** convertCsv(Result): orElse(null) turns an empty Optional into a null string, which is the
      same Option. */
  function ToCsvDto(result: Result): (d: ResultCsvDto)
    ensures d.result == result
  {
    ResultCsvDto(result, Destination(result))
  }

  /** The CSV and the shown view carry the same destination: a null CSV cell is exactly an empty
      Optional. With the corrected resolver an unresolvable link leaves the cell null. As written,
      both conversions throw instead for a null url, or a null realUrl with a relative url
      (UrlResolver.NullArgumentsThrow), and for the link "..//" on a page without a path
      (UrlResolver.SlashSlashReparseThrows). */
  lemma CsvAgreesWithShow(result: Result)
    ensures ToCsvDto(result).destinationUrl == ToShowDto(result).destinationUrl
    ensures ToCsvDto(result).destinationUrl.None? <==> GetDestinationUrl(result.realUrl, result.url).None?
  {
  }

  /** A Result created by toResults shows the link its rule found, resolved against the page the
      request was about. */
  lemma DestinationOfCreatedResult(bulk: ResultBulkCreateDto, results: seq<Result>, i: nat)
    requires |results| == |bulk.resultRuleCreateDtos| && i < |results|
    requires forall k :: 0 <= k < |results| ==>
      FromRule(results[k], bulk.resultRuleCreateDtos[k]) && FromPage(results[k], bulk)
    ensures ToShowDto(results[i]).destinationUrl
         == GetDestinationUrl(bulk.realUrl, bulk.resultRuleCreateDtos[i].url)
  {
    assert FromRule(results[i], bulk.resultRuleCreateDtos[i]) && FromPage(results[i], bulk);
  }
}
