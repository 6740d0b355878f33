/** Values the components exchange with the toast service and the server actions. */
module Ui {
  /** One `toast({ title, description, variant })` call; `destructive` is the
      error variant. */
  datatype Toast = Toast(title: string, description: string, destructive: bool)

  /** What a server action of `src/app/actions.ts` resolves to:
      `{ success: true, data }` or `{ success: false, error }`. */
  datatype ActionResult<T> = Succeeded(data: T) | Failed(error: string)
}
