/** The medicines screen: the seven pieces of state the screen remembers and
    the callbacks that reassign them. Compose recomposition is not modelled;
    the seven variables are plain mutable fields of one object. */
module Screen {
  import opened Store

  class MedicinesScreen {
    var medicines: seq<Medicine>
    var isAddingMedicine: bool
    var isEditingMedicine: bool
    var selectedMedicine: Medicine
    var medicineName: string
    var medicineDosage: string
    var medicineSchedule: string

    /** What every callback keeps: no callback ever turns adding mode on, and
        every id on the list is positive (so id 0 of NoSelection matches no row). */
    ghost predicate Valid()
      reads this
    {
      !isAddingMedicine && PositiveIds(medicines)
    }

    /** Whether the form (text fields, submit and cancel) is shown instead of
        the floating add button. Under Valid(), that is exactly edit mode. */
    function FormVisible(): (r: bool)
      reads this
      ensures Valid() ==> (r <==> isEditingMedicine)
    {
      isAddingMedicine || isEditingMedicine
    }

    /** The screen as first shown: the seed list, both modes off, nothing
        selected, empty drafts. */
    constructor ()
      ensures Valid()
      ensures medicines == SampleMedicines
      ensures !isAddingMedicine && !isEditingMedicine
      ensures selectedMedicine == NoSelection
      ensures medicineName == "" && medicineDosage == "" && medicineSchedule == ""
    {
      medicines := SampleMedicines;
      isAddingMedicine := false;
      isEditingMedicine := false;
      selectedMedicine := NoSelection;
      medicineName := "";
      medicineDosage := "";
      medicineSchedule := "";
    }

    /** The edit icon of row `medicine`: select it, copy its fields into the
        drafts and enter edit mode; the list and adding mode stay as they are. */
    method OnRowEditClick(medicine: Medicine)
      modifies this
      ensures selectedMedicine == medicine
      ensures medicineName == medicine.name && medicineDosage == medicine.dosage
      ensures medicineSchedule == medicine.schedule
      ensures isEditingMedicine
      ensures medicines == old(medicines) && isAddingMedicine == old(isAddingMedicine)
      ensures old(Valid()) ==> Valid()
    {
      selectedMedicine := medicine;
      medicineName := medicine.name;
      medicineDosage := medicine.dosage;
      medicineSchedule := medicine.schedule;
      isEditingMedicine := true;
    }

    /** The delete icon of row `medicine`: drop every row with its id; nothing
        else changes. */
    method OnDeleteClick(medicine: Medicine)
      modifies this
      ensures medicines == Delete(old(medicines), medicine.id)
      ensures isAddingMedicine == old(isAddingMedicine) && isEditingMedicine == old(isEditingMedicine)
      ensures selectedMedicine == old(selectedMedicine)
      ensures medicineName == old(medicineName) && medicineDosage == old(medicineDosage)
      ensures medicineSchedule == old(medicineSchedule)
      ensures old(Valid()) ==> Valid()
    {
      medicines := Delete(medicines, medicine.id);
    }

    /** Typing in the name field replaces the name draft and nothing else. */
    method OnNameChange(text: string)
      modifies this
      ensures medicineName == text
      ensures medicines == old(medicines) && selectedMedicine == old(selectedMedicine)
      ensures isAddingMedicine == old(isAddingMedicine) && isEditingMedicine == old(isEditingMedicine)
      ensures medicineDosage == old(medicineDosage) && medicineSchedule == old(medicineSchedule)
      ensures old(Valid()) ==> Valid()
    {
      medicineName := text;
    }

    /** Typing in the dosage field replaces the dosage draft and nothing else. */
    method OnDosageChange(text: string)
      modifies this
      ensures medicineDosage == text
      ensures medicines == old(medicines) && selectedMedicine == old(selectedMedicine)
      ensures isAddingMedicine == old(isAddingMedicine) && isEditingMedicine == old(isEditingMedicine)
      ensures medicineName == old(medicineName) && medicineSchedule == old(medicineSchedule)
      ensures old(Valid()) ==> Valid()
    {
      medicineDosage := text;
    }

    /** Typing in the schedule field replaces the schedule draft and nothing else. */
    method OnScheduleChange(text: string)
      modifies this
      ensures medicineSchedule == text
      ensures medicines == old(medicines) && selectedMedicine == old(selectedMedicine)
      ensures isAddingMedicine == old(isAddingMedicine) && isEditingMedicine == old(isEditingMedicine)
      ensures medicineName == old(medicineName) && medicineDosage == old(medicineDosage)
      ensures old(Valid()) ==> Valid()
    {
      medicineSchedule := text;
    }

    /** Leave add/edit: both modes off and all three drafts empty. The list and
        the selection are not touched. */
    method ResetAddEditState()
      modifies this
      ensures !isAddingMedicine && !isEditingMedicine
      ensures medicineName == "" && medicineDosage == "" && medicineSchedule == ""
      ensures medicines == old(medicines) && selectedMedicine == old(selectedMedicine)
      ensures PositiveIds(old(medicines)) ==> Valid()
    {
      isAddingMedicine := false;
      isEditingMedicine := false;
      medicineName := "";
      medicineDosage := "";
      medicineSchedule := "";
    }

    /** Append a row built from the drafts, numbered size plus one, then reset. */
    method OnAddClick()
      modifies this
      ensures medicines == Add(old(medicines), old(medicineName), old(medicineDosage), old(medicineSchedule))
      ensures !isAddingMedicine && !isEditingMedicine
      ensures medicineName == "" && medicineDosage == "" && medicineSchedule == ""
      ensures selectedMedicine == old(selectedMedicine)
      ensures PositiveIds(old(medicines)) ==> Valid()
    {
      medicines := Add(medicines, medicineName, medicineDosage, medicineSchedule);
      ResetAddEditState();
    }

    /** Rebuild every row carrying the selected id from the drafts, then reset. */
    method OnEditClick()
      modifies this
      ensures medicines == Update(old(medicines), old(selectedMedicine),
                                  old(medicineName), old(medicineDosage), old(medicineSchedule))
      ensures !isAddingMedicine && !isEditingMedicine
      ensures medicineName == "" && medicineDosage == "" && medicineSchedule == ""
      ensures selectedMedicine == old(selectedMedicine)
      ensures PositiveIds(old(medicines)) ==> Valid()
    {
      UpdateKeepsIds(medicines, selectedMedicine, medicineName, medicineDosage, medicineSchedule);
      medicines := Update(medicines, selectedMedicine, medicineName, medicineDosage, medicineSchedule);
      ResetAddEditState();
    }

    /** Cancel: reset without touching the list. */
    method OnCancelClick()
      modifies this
      ensures medicines == old(medicines) && selectedMedicine == old(selectedMedicine)
      ensures !isAddingMedicine && !isEditingMedicine
      ensures medicineName == "" && medicineDosage == "" && medicineSchedule == ""
      ensures PositiveIds(old(medicines)) ==> Valid()
    {
      ResetAddEditState();
    }

    /** The form's submit button: add in adding mode, otherwise update in
        editing mode, otherwise nothing. Since adding mode is never entered,
        under Valid() a submit never adds. */
    method SubmitClick()
      modifies this
      ensures old(isAddingMedicine) ==>
                medicines == Add(old(medicines), old(medicineName), old(medicineDosage), old(medicineSchedule))
      ensures !old(isAddingMedicine) && old(isEditingMedicine) ==>
                medicines == Update(old(medicines), old(selectedMedicine),
                                    old(medicineName), old(medicineDosage), old(medicineSchedule))
      ensures old(isAddingMedicine) || old(isEditingMedicine) ==>
                !isAddingMedicine && !isEditingMedicine &&
                medicineName == "" && medicineDosage == "" && medicineSchedule == ""
      ensures !old(isAddingMedicine) && !old(isEditingMedicine) ==>
                medicines == old(medicines) &&
                isAddingMedicine == old(isAddingMedicine) && isEditingMedicine == old(isEditingMedicine) &&
                medicineName == old(medicineName) && medicineDosage == old(medicineDosage) &&
                medicineSchedule == old(medicineSchedule)
      ensures selectedMedicine == old(selectedMedicine)
      ensures old(Valid()) ==> Valid()
      ensures old(Valid()) ==> medicines == (if old(isEditingMedicine)
                                             then Update(old(medicines), old(selectedMedicine),
                                                         old(medicineName), old(medicineDosage), old(medicineSchedule))
                                             else old(medicines))
    {
      if isAddingMedicine {
        OnAddClick();
      } else if isEditingMedicine {
        OnEditClick();
      }
    }

    /** The floating add button, shown when the form is hidden: it calls the
        add callback directly, appending a row built from the current drafts. */
    method FloatingButtonClick()
      modifies this
      ensures medicines == Add(old(medicines), old(medicineName), old(medicineDosage), old(medicineSchedule))
      ensures !isAddingMedicine && !isEditingMedicine
      ensures medicineName == "" && medicineDosage == "" && medicineSchedule == ""
      ensures selectedMedicine == old(selectedMedicine)
      ensures PositiveIds(old(medicines)) ==> Valid()
    {
      OnAddClick();
    }
  }

  /** From the first screen, delete the "Aspirin" row (id 2) and press the
      floating add button: the drafts are empty, so a blank row with id 3 is
      appended next to "Ibuprofen", which already has id 3. */
  method DeleteThenAddScenario() returns (final: seq<Medicine>)
    ensures final == [SampleMedicines[0], SampleMedicines[2], Medicine(3, "", "", "")]
    ensures !UniqueIds(final)
  {
    var screen := new MedicinesScreen();
    screen.OnDeleteClick(SampleMedicines[1]);
    screen.FloatingButtonClick();
    final := screen.medicines;
    assert final[1].id == final[2].id;
  }

  /** From the first screen, edit the "Ibuprofen" row, change its dosage to
      250mg and submit: only that row changes, and the form is closed. */
  method EditDosageScenario() returns (final: seq<Medicine>, formShown: bool)
    ensures final == [SampleMedicines[0], SampleMedicines[1], Medicine(3, "Ibuprofen", "250mg", "Evening")]
    ensures !formShown
  {
    var screen := new MedicinesScreen();
    screen.OnRowEditClick(screen.medicines[2]);
    assert screen.FormVisible();
    screen.OnDosageChange("250mg");
    screen.SubmitClick();
    final := screen.medicines;
    formShown := screen.FormVisible();
  }
}
