/** The interest record the form produces and the profile page reads. */
module Interests {

  /**
   * What the form hands to `onSubmit`: a `CourseInterest` without its `id`
   * and `registeredDate`, each selection list encoded as one `", "`-joined text.
   */
  datatype Registration = Registration(
    courseName: string,
    selectedUnit: string,
    selectedDay: string,
    selectedShift: string)

  /**
   * A registered interest. The `id` comes from `Math.random` and the
   * timestamp from `new Date()`; both are opaque here, the timestamp as an integer.
   */
  datatype CourseInterest = CourseInterest(
    id: string,
    courseName: string,
    selectedUnit: string,
    selectedDay: string,
    selectedShift: string,
    registeredDate: int)
}
