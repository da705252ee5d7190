/** antd's `message` toasts, which the pages raise as they settle their requests. Each page
    keeps the toasts it raised, oldest first. */
module Message {
  import opened Json

  datatype Toast = Success(text: Json) | Warning(text: Json) | Error(text: Json)
}
