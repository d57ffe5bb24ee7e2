/** Form fields as both page scripts see them. Of the DOM, a field keeps what
    validation reads (its `type`, `id`, `required` attribute and current value)
    and the error state validation writes: the `error` class on the field and
    the error message element below it, abstracted to the kind of failure it
    reports while it is displayed. */
module Fields {

  /** Why a field was refused; each stands for one of the user-facing messages. */
  datatype ErrorKind = Required | BadEmail | BadPhone | BadInn

  /** The outcome of validating one field. */
  datatype Verdict = Ok | Fail(kind: ErrorKind)

  /** The error message element of a field: hidden (or absent), or displayed
      with the message for one kind of failure. */
  datatype Message = Hidden | Showing(kind: ErrorKind)

  /** Everything validation writes on a field: the `error` class and the message. */
  datatype ErrorState = ErrorState(errorClass: bool, message: Message)

  class Field {
    /** `field.type`: "email", "tel", "text", "textarea", "select-one", ... */
    const inputType: string
    /** `field.id`. */
    const id: string
    /** `field.hasAttribute('required')`. */
    const required: bool
    /** `field.value`, changed by the browser as the user types. */
    var value: string
    /** `field.classList.contains('error')`. */
    var errorClass: bool
    var message: Message

    constructor (inputType: string, id: string, required: bool, value: string)
      ensures this.inputType == inputType && this.id == id && this.required == required
      ensures this.value == value && !errorClass && message == Hidden
    {
      this.inputType := inputType;
      this.id := id;
      this.required := required;
      this.value := value;
      errorClass := false;
      message := Hidden;
    }

    /** The error state of the field, as one value. */
    function State(): (st: ErrorState)
      reads this
    {
      ErrorState(errorClass, message)
    }

    /** The `error` class is on the field exactly while its message is displayed. */
    ghost predicate Consistent()
      reads this
    {
      errorClass == message.Showing?
    }
  }

  /** `showFieldError`: put the `error` class on the field and display the
      message for `kind` below it. */
  method ShowFieldError(f: Field, kind: ErrorKind)
    modifies f`errorClass, f`message
    ensures f.errorClass && f.message == Showing(kind)
    ensures f.Consistent()
  {
    f.errorClass := true;
    f.message := Showing(kind);
  }

  /** A form element and the list its `querySelectorAll('input, textarea, select')`
      returns. */
  class Form {
    const fields: seq<Field>

    constructor (fields: seq<Field>)
      ensures this.fields == fields
    {
      this.fields := fields;
    }

    ghost function Elements(): set<Field> {
      set f | f in fields
    }
  }
}
