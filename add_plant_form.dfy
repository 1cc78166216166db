/** The decision of the add-plant form over the text of its fields, and the
    values it forwards when the form is saved. */
module AddPlantForm {
  import opened Results
  import opened JavaText
  import opened Calendar
  import opened Plants

  /** The result of `checkForm`: accepted, or the message it shows. */
  datatype FormCheck =
    | Accepted
    | EmptyNameAndSpecie    // toast_addPlant_emptyNameSpecie
    | WrongWaterFreq        // toast_addPlant_wrongWaterFreq: an int below 1
    | InvalidWaterFreq      // toast_addPlant_invalidWaterFreq: not an int

  /** `checkForm`: a name or a specie is needed first; then the frequency
      text must parse as an int, and that int must be at least 1. The
      location field is not consulted. */
  function CheckForm(name: string, specie: string, waterFreq: string): (c: FormCheck)
    ensures name == "" && specie == "" ==> c == EmptyNameAndSpecie
    ensures c == EmptyNameAndSpecie ==> name == "" && specie == ""
    ensures c == InvalidWaterFreq <==> (name != "" || specie != "") && ParseInt(waterFreq).None?
    ensures c == WrongWaterFreq <==> (name != "" || specie != "") && ParseInt(waterFreq).Some? && ParseInt(waterFreq).value < 1
  {
    if name == [] && specie == [] then EmptyNameAndSpecie
    else match ParseInt(waterFreq)
      case None => InvalidWaterFreq
      case Some(f) => if f < 1 then WrongWaterFreq else Accepted
  }

  /** The values `convertPlant` puts in the result intent. */
  datatype PlantForm = PlantForm(name: string, specie: string, location: string, wateringFrequency: int32)

  /** `convertPlant`: forwards the three text fields unchanged together with
      the parsed frequency; the parse throws NumberFormatException for text
      that is not an int. */
  function ConvertPlant(name: string, specie: string, location: string, waterFreq: string): (r: Result<PlantForm>)
    ensures r.Success? <==> ParseInt(waterFreq).Some?
    ensures r.Failure? ==> r.error == NumberFormat
    ensures r.Success? ==> r.value.name == name && r.value.specie == specie && r.value.location == location
    ensures r.Success? ==> r.value.wateringFrequency == ParseInt(waterFreq).value
  {
    match ParseInt(waterFreq)
    case None => Failure(NumberFormat)
    case Some(f) => Success(PlantForm(name, specie, location, f))
  }

  /** The form is accepted exactly when a name or a specie is given and the
      frequency text is an int of at least 1. */
  lemma AcceptedExactly(name: string, specie: string, waterFreq: string)
    ensures CheckForm(name, specie, waterFreq) == Accepted <==>
      (name != "" || specie != "") && ParseInt(waterFreq).Some? && ParseInt(waterFreq).value >= 1
  {
  }

  /** An accepted form always converts, and what it forwards satisfies the
      plant's frequency invariant: building a Plant from it cannot throw. */
  lemma AcceptedFormBuildsPlant(name: string, specie: string, location: string, waterFreq: string, today: LocalDate)
    requires CheckForm(name, specie, waterFreq) == Accepted
    ensures ConvertPlant(name, specie, location, waterFreq).Success?
    ensures ConvertPlant(name, specie, location, waterFreq).value.wateringFrequency >= 1
    ensures NewPlantRecord(name, specie, location, ConvertPlant(name, specie, location, waterFreq).value.wateringFrequency, today).Success?
  {
  }

  /** Typical frequency texts: a plain number and a signed one are accepted,
      zero and a negative number are refused as wrong, and empty text, a
      lone sign, and a number beyond the int range are refused as invalid. */
  lemma FrequencyTexts(n: int32)
    ensures n >= 1 ==> CheckForm("Ficus", "", PaddedInteger(n, 1)) == Accepted
    ensures n >= 1 ==> CheckForm("", "Ficus elastica", "+" + PaddedInteger(n, 1)) == Accepted
    ensures n < 1 ==> CheckForm("Ficus", "", PaddedInteger(n, 1)) == WrongWaterFreq
    ensures CheckForm("Ficus", "", "") == InvalidWaterFreq
    ensures CheckForm("Ficus", "", "-") == InvalidWaterFreq
    ensures CheckForm("Ficus", "", PaddedInteger(MaxInt + 1, 1)) == InvalidWaterFreq
  {
    ParseIntOfPaddedInteger(n, 1);
    ParseIntRejects("");
    ParseIntRejects("-");
    var big := PaddedInteger(MaxInt + 1, 1);
    DigitsValueOfToDigits(MaxInt + 1);
    PadLeftValue(ToDigits(MaxInt + 1), 1);
    assert IsDigit(big[0]);
    if n >= 1 {
      var t := PaddedInteger(n, 1);
      assert ("+" + t)[0] == '+' && ("+" + t)[1..] == t;
      assert IsDigit(t[0]);
    }
  }
}
