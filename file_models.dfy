/**
 * The accessors of the two file models: the status label and colour of a
 * conversion (`PdfTextConverter`) and the two ways the models pick a unit
 * for a file size. The rendering of the number (`round`, `number_format`)
 * is not modelled: the accessors return the scaled value and the unit.
 */
module FileModels {
  import opened Numeric

  // ----- PdfTextConverter: status ------------------------------------------------------

  const STATUSES: seq<string> := ["pending", "processing", "completed", "failed"]
  const LABELS: seq<string> := ["Pendente", "Processando", "Concluído", "Falhou"]
  const COLORS: seq<string> := ["warning", "info", "success", "danger"]

  /** `getStatusLabelAttribute` */
  function StatusLabel(status: string): (r: string)
    ensures forall k :: 0 <= k < |STATUSES| ==> (status == STATUSES[k] <==> r == LABELS[k])
    ensures status !in STATUSES <==> r == "Desconhecido"
  {
    match status
    case "pending" => "Pendente"
    case "processing" => "Processando"
    case "completed" => "Concluído"
    case "failed" => "Falhou"
    case _ => "Desconhecido"
  }

  /** `getStatusColorAttribute` */
  function StatusColor(status: string): (r: string)
    ensures forall k :: 0 <= k < |STATUSES| ==> (status == STATUSES[k] <==> r == COLORS[k])
    ensures status !in STATUSES <==> r == "gray"
  {
    match status
    case "pending" => "warning"
    case "processing" => "info"
    case "completed" => "success"
    case "failed" => "danger"
    case _ => "gray"
  }

  /** A known status has its own label: no two statuses share one, and none is labelled unknown */
  lemma {:induction false} StatusLabelsDistinct(s: string, t: string)
    requires s in STATUSES && StatusLabel(s) == StatusLabel(t)
    ensures s == t
  {
    var k :| 0 <= k < |STATUSES| && STATUSES[k] == s;
    assert StatusLabel(t) == LABELS[k];
    assert t == STATUSES[k];
  }

  /** The label and the colour agree on which statuses are known, and both tell the statuses apart */
  lemma StatusColorMatchesLabel(s: string, t: string)
    ensures StatusLabel(s) == "Desconhecido" <==> StatusColor(s) == "gray"
    ensures StatusColor(s) == StatusColor(t) <==> StatusLabel(s) == StatusLabel(t)
  {
  }

  // ----- PdfTextConverter: file size ---------------------------------------------------

  const UNITS: seq<string> := ["B", "KB", "MB", "GB"]

  function Pow1024(i: nat): (p: real)
    ensures p >= 1.0
  {
    if i == 0 then 1.0 else 1024.0 * Pow1024(i - 1)
  }

  /**
   * The unit the size loop settles on: the first `i` at which the size,
   * divided by 1024 `i` times, is no longer above 1024, capped at "GB".
   */
  ghost predicate ChosenUnit(size: real, i: nat) {
    && i < |UNITS|
    && (i == |UNITS| - 1 || size / Pow1024(i) <= 1024.0)
    && forall j :: 0 <= j < i ==> size / Pow1024(j) > 1024.0
  }

  /** The size loop of `getFormattedFileSizeAttribute`: the value it prints and the unit */
  method FormatFileSize(fileSize: int) returns (bytes: real, unit: string)
    ensures exists i: nat :: ChosenUnit(fileSize as real, i) && bytes == fileSize as real / Pow1024(i) && unit == UNITS[i]
  {
    bytes := fileSize as real;
    var i := 0;
    while bytes > 1024.0 && i < |UNITS| - 1
      invariant 0 <= i < |UNITS|
      invariant bytes == fileSize as real / Pow1024(i)
      invariant forall j :: 0 <= j < i ==> fileSize as real / Pow1024(j) > 1024.0
    {
      DivideAgain(fileSize as real, i);
      bytes := bytes / 1024.0;
      i := i + 1;
    }
    unit := UNITS[i];
  }

  lemma DivideAgain(size: real, i: nat)
    ensures size / Pow1024(i) / 1024.0 == size / Pow1024(i + 1)
  {
    var p := Pow1024(i);
    assert Pow1024(i + 1) == 1024.0 * p;
  }

  /** The unit is determined by the size: no two indices satisfy the rule */
  lemma ChosenUnitUnique(size: real, i: nat, i': nat)
    requires ChosenUnit(size, i) && ChosenUnit(size, i')
    ensures i == i'
  {
  }

  /** Above "B" the printed value is above 1, and below "GB" it is at most 1024 */
  lemma ScaledValueRange(size: real, i: nat)
    requires ChosenUnit(size, i)
    ensures i > 0 ==> size / Pow1024(i) > 1.0
    ensures i < |UNITS| - 1 ==> size / Pow1024(i) <= 1024.0
  {
    if i > 0 {
      assert size / Pow1024(i - 1) > 1024.0;
      DivideAgain(size, i - 1);
    }
  }

  /** Exactly 1024 bytes is not above 1024, so it stays in bytes */
  lemma KilobyteStaysBytes(i: nat)
    requires ChosenUnit(1024.0, i)
    ensures UNITS[i] == "B"
  {
    assert 1024.0 / Pow1024(0) == 1024.0;
  }

  // ----- PdfUpload: file size ----------------------------------------------------------

  /** What `PdfUpload::getFormattedFileSizeAttribute` prints: an exact byte count, or a value and a unit */
  datatype SizeText = Bytes(text: string) | Scaled(value: real, unit: string)

  /** `getFormattedFileSizeAttribute` of an upload */
  function UploadFileSize(bytes: int): (r: SizeText)
    ensures bytes < 1024 <==> r.Bytes?
    ensures r.Bytes? ==> r.text == IntToString(bytes) + " bytes"
    ensures r.Scaled? ==> r.value >= 1.0 && (r.unit == "GB" || r.value < 1024.0)
    ensures r.Scaled? ==> r.unit in ["KB", "MB", "GB"]
  {
    if bytes >= 1073741824 then Scaled(bytes as real / 1073741824.0, "GB")
    else if bytes >= 1048576 then Scaled(bytes as real / 1048576.0, "MB")
    else if bytes >= 1024 then Scaled(bytes as real / 1024.0, "KB")
    else Bytes(IntToString(bytes) + " bytes")
  }

  /** The upload thresholds are the powers of 1024 the converter divides by */
  lemma UploadThresholds()
    ensures Pow1024(1) == 1024.0 && Pow1024(2) == 1048576.0 && Pow1024(3) == 1073741824.0
  {
    assert Pow1024(1) == 1024.0 * Pow1024(0);
  }

  /** The two models disagree on 1024 bytes: "B" for a conversion, "KB" for an upload */
  lemma KilobyteDisagreement(i: nat)
    requires ChosenUnit(1024.0, i)
    ensures UNITS[i] == "B" && UploadFileSize(1024) == Scaled(1.0, "KB")
  {
    KilobyteStaysBytes(i);
  }

  // ----- as evidently intended --------------------------------------------------------------

  /**
   * The unit of a loop that moves up once the size reaches 1024, as the
   * upload model's thresholds do: the first `i` at which the scaled size is
   * below 1024, capped at "GB".
   */
  ghost predicate ChosenUnitAtLeast(size: real, i: nat) {
    && i < |UNITS|
    && (i == |UNITS| - 1 || size / Pow1024(i) < 1024.0)
    && forall j :: 0 <= j < i ==> size / Pow1024(j) >= 1024.0
  }

  /** The size loop with `>=` in place of `>` */
  method FormatFileSizeAtLeast(fileSize: int) returns (bytes: real, unit: string)
    ensures exists i: nat :: ChosenUnitAtLeast(fileSize as real, i) && bytes == fileSize as real / Pow1024(i) && unit == UNITS[i]
  {
    bytes := fileSize as real;
    var i := 0;
    while bytes >= 1024.0 && i < |UNITS| - 1
      invariant 0 <= i < |UNITS|
      invariant bytes == fileSize as real / Pow1024(i)
      invariant forall j :: 0 <= j < i ==> fileSize as real / Pow1024(j) >= 1024.0
    {
      DivideAgain(fileSize as real, i);
      bytes := bytes / 1024.0;
      i := i + 1;
    }
    unit := UNITS[i];
  }

  /** With `>=`, the conversion model picks the unit and the value the upload model prints, for every size */
  lemma AtLeastAgreesWithUpload(n: int, i: nat)
    requires ChosenUnitAtLeast(n as real, i)
    ensures i == 0 <==> UploadFileSize(n).Bytes?
    ensures i > 0 ==> UploadFileSize(n) == Scaled(n as real / Pow1024(i), UNITS[i])
  {
    UploadThresholds();
    var x := n as real;
    if i == 0 {
      assert n < 1024;
    } else {
      assert x >= 1024.0 by { assert x / Pow1024(0) >= 1024.0; }
      if i == 1 {
        ScaledBelow(x, 1024.0);
        assert 1024 <= n < 1048576;
        assert UploadFileSize(n) == Scaled(x / 1024.0, "KB");
      } else {
        assert x / 1024.0 >= 1024.0 by { assert x / Pow1024(1) >= 1024.0; }
        ScaledAtLeast(x, 1024.0);
        if i == 2 {
          ScaledBelow(x, 1048576.0);
          assert 1048576 <= n < 1073741824;
          assert UploadFileSize(n) == Scaled(x / 1048576.0, "MB");
        } else {
          assert x / 1048576.0 >= 1024.0 by { assert x / Pow1024(2) >= 1024.0; }
          ScaledAtLeast(x, 1048576.0);
          assert n >= 1073741824;
          assert UploadFileSize(n) == Scaled(x / 1073741824.0, "GB");
        }
      }
    }
  }

  /** A size that scales below 1024 is below 1024 times the scale */
  lemma ScaledBelow(x: real, p: real)
    requires p > 0.0 && x / p < 1024.0
    ensures x < 1024.0 * p
  {
    assert x == (x / p) * p;
  }

  /** A size that scales to 1024 or more is at least 1024 times the scale */
  lemma ScaledAtLeast(x: real, p: real)
    requires p > 0.0 && x / p >= 1024.0
    ensures x >= 1024.0 * p
  {
    assert x == (x / p) * p;
  }

  /** Exactly 1024 bytes becomes "KB" once the loop moves up at 1024 */
  lemma KilobyteMovesUp(i: nat)
    requires ChosenUnitAtLeast(1024.0, i)
    ensures UNITS[i] == "KB" && UploadFileSize(1024) == Scaled(1024.0 / Pow1024(i), UNITS[i])
  {
    AtLeastAgreesWithUpload(1024, i);
  }
}
