/** The two record types of the data layer: the exercise as it arrives from the
    remote JSON array, and the row stored in the local `exercises` table. */
module Data {

  /** One workout exercise as decoded from the remote JSON
      (`exercise_name`, `exercise_description`, `image`, `body_part`,
      `difficulty`, `needs_equipment`). */
  datatype Exercise = Exercise(
    exerciseName: string,
    exerciseDescription: string,
    image: string,
    bodyPart: string,
    difficulty: string,
    needsEquipment: bool
  )

  /** One row of the `exercises` table; `name` is the primary key. */
  datatype ExerciseEntity = ExerciseEntity(
    name: string,
    description: string,
    image: string,
    bodyPart: string,
    difficulty: string,
    needsEquipment: bool
  )
}
