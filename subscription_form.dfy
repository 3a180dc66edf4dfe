/**
 * The add/edit form (subscription-form.component.ts): its two inputs, the
 * edited record and the selected day, the form fields, and the records and
 * ids its save and delete buttons emit. An emitter firing is modelled as the
 * handler's Option result: Some(x) for `emit(x)`, None for an early return.
 */
module SubscriptionForm {
  import opened Wrappers
  import opened Dates
  import opened Subscriptions

  /** The form fields; a price field left empty is None (`null`). */
  datatype FormData = FormData(name: string, price: Option<int>, cycle: Cycle)

  /** The blank form: no name, no price, monthly. */
  const EmptyForm := FormData("", None, Monthly)

  /** What the form shows when it opens for `subscription`. */
  function InitialFormData(subscription: Option<Subscription>): (f: FormData)
    ensures subscription.None? ==> f.name == [] && f.price.None? && f.cycle == Monthly
    ensures subscription.Some? ==>
      var s := subscription.value;
      f.name == s.name && f.price == Some(s.price) && f.cycle == s.cycle
  {
    match subscription
    case None => EmptyForm
    case Some(s) => FormData(s.name, Some(s.price), s.cycle)
  }

  class SubscriptionFormComponent {
    var subscription: Option<Subscription>
    var selectedDate: Option<Date>
    var formData: FormData

    /** The two inputs as the parent binds them; the fields start blank. */
    constructor (subscription: Option<Subscription>, selectedDate: Option<Date>)
      ensures this.subscription == subscription && this.selectedDate == selectedDate
      ensures formData == EmptyForm
    {
      this.subscription := subscription;
      this.selectedDate := selectedDate;
      formData := EmptyForm;
    }

    /** Fills the fields from the edited record, or blanks them when there is none. */
    method NgOnInit()
      modifies this`formData
      ensures formData == InitialFormData(subscription)
    {
      if subscription.Some? {
        formData := FormData(subscription.value.name, Some(subscription.value.price), subscription.value.cycle);
      } else {
        formData := EmptyForm;
      }
    }

    /**
     * The record the save button emits. The name must be non-empty and the
     * price present, non-zero and positive; the payment day is the edited
     * record's, else the selected day, else nothing is emitted. An edited
     * record keeps its id; a new one has the empty id the store replaces.
     */
    function OnSave(): (r: Option<Subscription>)
      reads this
      ensures r.Some? <==>
        && formData.name != []
        && formData.price.Some? && formData.price.value > 0
        && (subscription.Some? || selectedDate.Some?)
      ensures r.Some? ==>
        && r.value.name == formData.name && r.value.name != []
        && Some(r.value.price) == formData.price && r.value.price > 0
        && r.value.cycle == formData.cycle
      ensures r.Some? && subscription.Some? ==>
        r.value.id == subscription.value.id && r.value.paymentDate == subscription.value.paymentDate
      ensures r.Some? && subscription.None? ==>
        r.value.id == [] && Some(r.value.paymentDate) == selectedDate
    {
      if formData.name == [] || formData.price.None? || formData.price.value == 0 || formData.price.value <= 0 then
        None
      else if subscription.Some? then
        Some(Subscription(subscription.value.id, formData.name, formData.price.value, formData.cycle,
                          subscription.value.paymentDate))
      else if selectedDate.Some? then
        Some(Subscription([], formData.name, formData.price.value, formData.cycle, selectedDate.value))
      else
        None
    }

    /** The id the delete button emits: only that of an edited record with a non-empty id. */
    function OnDelete(): (r: Option<string>)
      reads this
      ensures r.Some? <==> subscription.Some? && subscription.value.id != []
      ensures r.Some? ==> r.value == subscription.value.id
    {
      if subscription.Some? && subscription.value.id != [] then Some(subscription.value.id) else None
    }
  }

  /**
   * Opening the form on a stored record and saving it untouched emits that
   * very record, whatever day is selected.
   */
  lemma UntouchedEditSavesSame(form: SubscriptionFormComponent, s: Subscription)
    requires form.subscription == Some(s) && form.formData == InitialFormData(form.subscription)
    requires s.name != [] && s.price > 0
    ensures form.OnSave() == Some(s)
  {
  }

  /**
   * The calendar's edit merge (the edited record with the emitted name,
   * price and cycle) gives back exactly the record the form emitted, so the
   * store receives what the form showed.
   */
  lemma EditMergeIsEmittedRecord(form: SubscriptionFormComponent, e: Subscription)
    requires form.subscription == Some(e) && form.OnSave().Some?
    ensures var r := form.OnSave().value;
      e.(name := r.name, price := r.price, cycle := r.cycle) == r
  {
  }

  /** A blank form never emits a record, whatever its inputs. */
  lemma BlankFormSavesNothing(form: SubscriptionFormComponent)
    requires form.formData == EmptyForm
    ensures form.OnSave() == None
  {
  }
}
